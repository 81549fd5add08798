/** What the verdict of orchestrator.cpp implies, over any reports. */
module VerdictProof {
  import opened Brand
  import opened Bytes
  import opened Counting
  import opened Verdict
  import Sni

  // ------------------------------------------------------ order independence

  // Two networks with the same organisations, in whatever order.
  ghost predicate SameNetwork(a: Network, b: Network) {
    a.table == b.table && forall org :: org in a.orgs <==> org in b.orgs
  }

  lemma {:induction false} SamePort(pf: PortFp, a: Network, b: Network)
    requires SameNetwork(a, b)
    ensures PortPenalty(a)(pf) == PortPenalty(b)(pf) && FlagsOn(pf, a) == FlagsOn(pf, b)
  {
    hide IsKnownCdnAsn, Marked, IsBrand, MarkersOf, HasToken;
    assert InCdn(a) == InCdn(b);
    assert LooksLikeCdnLb(pf, a) == LooksLikeCdnLb(pf, b);
    assert Reality(pf, a) == Reality(pf, b);
    if Reality(pf, a) { SameOwner(pf.sni.value.brandClaimed, a, b); }
    assert Impersonates(pf, a) == Impersonates(pf, b);
    SameSignals(pf, a, b);
  }

  lemma {:induction false} SameOwner(brand: string, a: Network, b: Network)
    requires SameNetwork(a, b)
    ensures AsnOwnsBrand(a.table, brand, a.orgs) == AsnOwnsBrand(b.table, brand, b.orgs)
  {
    hide Marked, IsBrand, MarkersOf;
    if a.orgs != [] { assert a.orgs[0] in b.orgs; }
    if b.orgs != [] { assert b.orgs[0] in a.orgs; }
  }

  lemma {:induction false} SameSignals(pf: PortFp, a: Network, b: Network)
    requires LooksLikeCdnLb(pf, a) == LooksLikeCdnLb(pf, b)
    requires Reality(pf, a) == Reality(pf, b) && Impersonates(pf, a) == Impersonates(pf, b)
    ensures StrongOn(pf, a) == StrongOn(pf, b)
  {
    hide LooksLikeCdnLb, Reality, Impersonates;
    assert StrongSni(pf, a) == StrongSni(pf, b);
    assert StrongHttps(pf, a) == StrongHttps(pf, b);
  }

  lemma {:induction false} SamePenalties(fps: seq<PortFp>, a: Network, b: Network)
    requires SameNetwork(a, b)
    ensures SumBy(fps, PortPenalty(a)) == SumBy(fps, PortPenalty(b)) && AllFlags(fps, a) == AllFlags(fps, b)
    decreases |fps|
  {
    hide PortPenalty, FlagsOn, SameNetwork;
    if fps != [] {
      SamePenalties(fps[..|fps| - 1], a, b);
      SamePort(fps[|fps| - 1], a, b);
    }
  }

  lemma {:induction false} FlagsConcat(s: seq<PortFp>, t: seq<PortFp>, net: Network)
    ensures AllFlags(s + t, net) == Or(AllFlags(s, net), AllFlags(t, net))
    decreases |t|
  {
    hide FlagsOn;
    if t == [] {
      assert s + t == s;
    } else {
      assert (s + t)[..|s + t| - 1] == s + t[..|t| - 1];
      FlagsConcat(s, t[..|t| - 1], net);
    }
  }

  lemma {:induction false} FlagsWithout(s: seq<PortFp>, i: nat, net: Network)
    requires i < |s|
    ensures AllFlags(s, net) == Or(AllFlags(s[..i] + s[i + 1..], net), FlagsOn(s[i], net))
  {
    hide FlagsOn;
    assert s == s[..i + 1] + s[i + 1..] && s[..i + 1][..i] == s[..i];
    FlagsConcat(s[..i + 1], s[i + 1..], net);
    FlagsConcat(s[..i], s[i + 1..], net);
  }

  lemma {:induction false} FlagsPermute(s: seq<PortFp>, t: seq<PortFp>, net: Network)
    requires multiset(s) == multiset(t)
    ensures AllFlags(s, net) == AllFlags(t, net)
    decreases |s|
  {
    hide FlagsOn, AllFlags;
    assert |multiset(s)| == |s| && |multiset(t)| == |t|;
    if s == [] {
      assert s == t;
    } else {
      var n := |s| - 1;
      assert s[n] in multiset(t);
      var i :| 0 <= i < |t| && t[i] == s[n];
      Without(t, i);
      Without(s, n);
      assert s[..n] + s[n + 1..] == s[..n];
      Cancel(multiset(s[..n]), multiset(t[..i] + t[i + 1..]), multiset{s[n]});
      FlagsWithout(t, i, net);
      FlagsWithout(s, n, net);
      FlagsPermute(s[..n], t[..i] + t[i + 1..], net);
    }
  }

  lemma {:induction false} OrgsAre(geoOrgs: seq<string>, org: string)
    ensures org in Orgs(geoOrgs) <==> org in geoOrgs && org != ""
    decreases |geoOrgs|
  {
    if geoOrgs != [] {
      OrgsAre(geoOrgs[..|geoOrgs| - 1], org);
      assert geoOrgs == geoOrgs[..|geoOrgs| - 1] + [geoOrgs[|geoOrgs| - 1]];
    }
  }

  lemma {:induction false} SameElements<T>(s: seq<T>, t: seq<T>, x: T)
    requires multiset(s) == multiset(t)
    ensures x in s <==> x in t
  {
    assert x in s <==> x in multiset(s);
  }

  /** The order of the port reports, the GeoIP records and the UDP replies decides nothing. */
  lemma {:induction false} OrderDoesNotMatter(r: Reports, q: Reports)
    requires multiset(r.fps) == multiset(q.fps) && multiset(r.geoOrgs) == multiset(q.geoOrgs)
      && multiset(r.udp) == multiset(q.udp)
    requires r.open == q.open && r.table == q.table
    ensures ScoreOf(r) == ScoreOf(q) && GradeOf(r) == GradeOf(q) && StackFor(r) == StackFor(q)
      && TierFor(r) == TierFor(q) && FlagsOf(r) == FlagsOf(q)
  {
    hide AllFlags, SumBy, PortPenalty, Orgs;
    var a, b := NetworkOf(r), NetworkOf(q);
    forall org ensures org in a.orgs <==> org in b.orgs {
      OrgsAre(r.geoOrgs, org);
      OrgsAre(q.geoOrgs, org);
      SameElements(r.geoOrgs, q.geoOrgs, org);
    }
    SamePenalties(r.fps, a, b);
    SumPermutes(r.fps, q.fps, PortPenalty(b));
    FlagsPermute(r.fps, q.fps, b);
    SameElements(r.udp, q.udp, UdpReply(51820, true));
    SameElements(r.udp, q.udp, UdpReply(55555, true));
    SameElements(r.udp, q.udp, UdpReply(41641, true));
  }

  // ---------------------------------------------------------------- monotone

  function Severity(g: Label): int {
    match g
    case Clean => 0
    case LowSignal => 1
    case Suspicious => 2
    case HighConfidence => 3
  }

  function Strictness(t: Tier): int {
    match t
    case Pass => 0
    case Monitor => 1
    case Block => 2
    case ImmediateBlock => 3
  }

  /** One more port report, or one more UDP reply, never raises the score and never softens the label or the tier. */
  lemma {:induction false} MoreReportsCostMore(r: Reports, pf: PortFp, reply: UdpReply)
    ensures var more := r.(fps := r.fps + [pf]);
      ScoreOf(more) <= ScoreOf(r) && Severity(GradeOf(r)) <= Severity(GradeOf(more))
    ensures var more := r.(udp := r.udp + [reply]);
      ScoreOf(more) <= ScoreOf(r) && Severity(GradeOf(r)) <= Severity(GradeOf(more))
    ensures Strictness(TierFor(r)) <= Strictness(TierFor(r.(fps := r.fps + [pf])))
    ensures Strictness(TierFor(r)) <= Strictness(TierFor(r.(udp := r.udp + [reply])))
  {
    hide AllFlags, PortPenalty, Orgs;
    assert (r.fps + [pf])[..|r.fps|] == r.fps;
    assert forall port :: RespondedOn(r.udp, port) ==> RespondedOn(r.udp + [reply], port);
    TierHardens(r, pf);
  }

  lemma {:induction false} TierHardens(r: Reports, pf: PortFp)
    ensures Strictness(TierFor(r)) <= Strictness(TierFor(r.(fps := r.fps + [pf])))
  {
    hide RespondedOn, Orgs, FlagsOn;
    assert (r.fps + [pf])[..|r.fps|] == r.fps;
  }

  // --------------------------------------------------------- what flags cost

  // A port that raises one of these flags pays for it.
  lemma {:induction false} FlagPenalty(pf: PortFp, net: Network)
    ensures Impersonates(pf, net) ==> Reality(pf, net)
    ensures var f, cost := FlagsOn(pf, net), PortPenalty(net)(pf);
      cost >= (if f.reality then 16 else 0) + (if f.impersonation then 18 else 0) + (if f.proxyOpen then 15 else 0)
        + (if f.canned || f.badVersion then 12 else 0)
  {
    hide LooksLikeCdnLb, AsnOwnsBrand, SoftOn;
    SumParts(
      StrongProxy(pf), StrongTls(pf), StrongSni(pf, net), StrongHttps(pf, net),
      If(Fresh(pf), FreshCertNotInCt(pf.port)), StrongJ3(pf));
    SniCost(pf, net);
    J3Cost(pf);
    ProxyCost(pf);
  }

  lemma {:induction false} SumParts(
      a: seq<Signal>, b: seq<Signal>, c: seq<Signal>, d: seq<Signal>, e: seq<Signal>, f: seq<Signal>)
    ensures SumBy(a + b + c + d + e + f, Penalty) >= SumBy(a, Penalty) + SumBy(c, Penalty) + SumBy(f, Penalty)
  {
    hide SumBy;
    SumConcat(a + b + c + d + e, f, Penalty);
    SumConcat(a + b + c + d, e, Penalty);
    SumConcat(a + b + c, d, Penalty);
    SumConcat(a + b, c, Penalty);
    SumConcat(a, b, Penalty);
  }

  lemma {:induction false} SniCost(pf: PortFp, net: Network)
    ensures SumBy(StrongSni(pf, net), Penalty) >= (if Reality(pf, net) then 16 else 0)
      + (if Impersonates(pf, net) then 18 else 0)
  {
    hide LooksLikeCdnLb, AsnOwnsBrand;
    if Reality(pf, net) {
      SumConcat(
        [SniSteering(pf.port, pf.sni.value.passthroughMode)],
        If(Impersonates(pf, net), ForeignBrand(pf.sni.value.brandClaimed)), Penalty);
      OneSum(SniSteering(pf.port, pf.sni.value.passthroughMode));
      OneSum(ForeignBrand(pf.sni.value.brandClaimed));
    }
  }

  lemma {:induction false} J3Cost(pf: PortFp)
    ensures SumBy(StrongJ3(pf), Penalty) >= if Canned(pf) || BadVersion(pf) then 12 else 0
  {
    hide SumBy, Canned, BadVersion;
    SumConcat(If(Canned(pf), CannedFallback(pf.port)), If(BadVersion(pf), MalformedHttpVersion(pf.port)), Penalty);
    OneSum(CannedFallback(pf.port));
    OneSum(MalformedHttpVersion(pf.port));
  }

  lemma {:induction false} ProxyCost(pf: PortFp)
    ensures SumBy(StrongProxy(pf), Penalty) >= if ProxyOpen(pf) then 15 else 0
  {
    OneSum(OpenHttpProxy(pf.port));
    OneSum(OpenSocks5(pf.port));
  }

  lemma {:induction false} OneSum(s: Signal)
    ensures SumBy([s], Penalty) == Penalty(s)
  {
    assert [s][..0] == [];
  }

  // All ports together pay for the flags, each at least once.
  lemma {:induction false} FlagPenalties(fps: seq<PortFp>, net: Network)
    ensures var f, cost := AllFlags(fps, net), SumBy(fps, PortPenalty(net));
      && (f.impersonation ==> f.reality)
      && cost >= (if f.reality then 16 else 0) + (if f.impersonation then 18 else 0)
        + (if f.canned || f.badVersion then 12 else 0)
      && (f.proxyOpen ==> cost >= 15)
    decreases |fps|
  {
    hide PortPenalty;
    if fps != [] {
      FlagPenalties(fps[..|fps| - 1], net);
      FlagPenalty(fps[|fps| - 1], net);
    }
  }

  /** Impersonation implies Reality, a score of at most 66, a label no better than suspicious, and a block. */
  lemma {:induction false} ImpersonationIsSevere(r: Reports)
    requires FlagsOf(r).impersonation
    ensures FlagsOf(r).reality && ScoreOf(r) <= 66
    ensures GradeOf(r) == Suspicious || GradeOf(r) == HighConfidence
    ensures TierFor(r) == Block || TierFor(r) == ImmediateBlock
  {
    hide AllFlags, SumBy, PortPenalty;
    FlagPenalties(r.fps, NetworkOf(r));
  }

  /** Each tier bounds the score. */
  lemma {:induction false} TierBoundsScore(r: Reports)
    ensures TierFor(r) == ImmediateBlock ==> ScoreOf(r) <= 85
    ensures TierFor(r) == Block ==> ScoreOf(r) <= 72 && GradeOf(r) != Clean
    ensures TierFor(r) == Monitor ==> ScoreOf(r) <= 88
  {
    hide AllFlags, SumBy, PortPenalty;
    FlagPenalties(r.fps, NetworkOf(r));
  }

  // --------------------------------------------------- CLEAN, yet blocked

  // The port's only signal is that it is an open proxy.
  predicate OnlyProxy(pf: PortFp, net: Network) {
    && (StrongOn(pf, net) == [OpenHttpProxy(pf.port)] || StrongOn(pf, net) == [OpenSocks5(pf.port)])
    && SoftOn(pf) == []
  }

  predicate Quiet(pf: PortFp, net: Network) { StrongOn(pf, net) == [] && SoftOn(pf) == [] }

  // One port is an open proxy and nothing else, every other port gives no
  // signal at all, and no UDP handshake was answered.
  ghost predicate OneProxyOnly(r: Reports) {
    && !RespondedOn(r.udp, 51820) && !RespondedOn(r.udp, 41641) && !RespondedOn(r.udp, 55555)
    && exists i :: 0 <= i < |r.fps| && OnlyProxy(r.fps[i], NetworkOf(r)) && OthersQuiet(r, i)
  }

  ghost predicate OthersQuiet(r: Reports, i: int) {
    forall j :: 0 <= j < |r.fps| && j != i ==> Quiet(r.fps[j], NetworkOf(r))
  }

  lemma {:induction false} NoCostNoSignals(signals: seq<Signal>)
    ensures SumBy(signals, Penalty) == 0 <==> signals == []
  { }

  lemma {:induction false} QuietCost(pf: PortFp, net: Network)
    ensures PortPenalty(net)(pf) == 0 <==> Quiet(pf, net)
  {
    hide StrongOn, SoftOn, SumBy;
    NoCostNoSignals(StrongOn(pf, net));
    NoCostNoSignals(SoftOn(pf));
  }

  // All but one of the reports cost nothing.
  lemma {:induction false} OthersCost(fps: seq<PortFp>, net: Network, i: nat)
    requires i < |fps|
    ensures PortPenalty(net)(fps[i]) <= SumBy(fps, PortPenalty(net))
    ensures SumBy(fps, PortPenalty(net)) == PortPenalty(net)(fps[i]) <==>
      forall j :: 0 <= j < |fps| && j != i ==> Quiet(fps[j], net)
    decreases |fps|
  {
    hide PortPenalty, Quiet;
    var n := |fps| - 1;
    QuietCost(fps[n], net);
    if i < n { OthersCost(fps[..n], net, i); } else { AllQuietCost(fps[..n], net); }
  }

  lemma {:induction false} AllQuietCost(fps: seq<PortFp>, net: Network)
    ensures SumBy(fps, PortPenalty(net)) == 0 <==> forall j :: 0 <= j < |fps| ==> Quiet(fps[j], net)
    decreases |fps|
  {
    hide PortPenalty, Quiet;
    if fps != [] {
      var n := |fps| - 1;
      QuietCost(fps[n], net);
      AllQuietCost(fps[..n], net);
    }
  }

  // An open proxy costs at least 15, and 15 only if nothing else was found on its port.
  lemma {:induction false} ProxyOnlyCost(pf: PortFp, net: Network)
    ensures ProxyOpen(pf) && PortPenalty(net)(pf) == 15 <==> OnlyProxy(pf, net)
  {
    hide StrongTls, StrongSni, StrongHttps, StrongJ3, SoftOn, Fresh, SumBy, If;
    var rest := StrongTls(pf) + StrongSni(pf, net) + StrongHttps(pf, net) + If(Fresh(pf), FreshCertNotInCt(pf.port))
      + StrongJ3(pf);
    assert StrongOn(pf, net) == StrongProxy(pf) + rest;
    NoProxyInRest(pf, net);
    SumConcat(StrongProxy(pf), rest, Penalty);
    OneSum(OpenHttpProxy(pf.port));
    OneSum(OpenSocks5(pf.port));
    NoCostNoSignals(rest);
    NoCostNoSignals(SoftOn(pf));
    if ProxyOpen(pf) {
      assert StrongProxy(pf) + [] == StrongProxy(pf);
    } else {
      assert StrongProxy(pf) == [] && StrongOn(pf, net) == rest;
    }
  }

  // Only the service makes a proxy signal.
  lemma {:induction false} NoProxyInRest(pf: PortFp, net: Network)
    ensures var rest := StrongTls(pf) + StrongSni(pf, net) + StrongHttps(pf, net)
      + If(Fresh(pf), FreshCertNotInCt(pf.port)) + StrongJ3(pf);
      rest != [] ==> !rest[0].OpenHttpProxy? && !rest[0].OpenSocks5?
  {
    hide Fresh, Reality, Impersonates, LooksLikeCdnLb, Canned, BadVersion;
  }

  lemma {:induction false} SomeProxy(fps: seq<PortFp>, net: Network) returns (i: nat)
    requires AllFlags(fps, net).proxyOpen
    ensures i < |fps| && ProxyOpen(fps[i])
    decreases |fps|
  {
    hide ProxyOpen;
    var n := |fps| - 1;
    if ProxyOpen(fps[n]) { i := n; } else { i := SomeProxy(fps[..n], net); }
  }

  lemma {:induction false} ProxyFlag(fps: seq<PortFp>, net: Network, i: nat)
    requires i < |fps| && ProxyOpen(fps[i])
    ensures AllFlags(fps, net).proxyOpen
    decreases |fps|
  {
    hide ProxyOpen;
    if i < |fps| - 1 { ProxyFlag(fps[..|fps| - 1], net, i); }
  }

  /** The label is CLEAN under an immediate block if and only if one open proxy is all that the reports show. */
  lemma {:induction false} CleanYetBlocked(r: Reports)
    ensures GradeOf(r) == Clean && TierFor(r) == ImmediateBlock <==> OneProxyOnly(r)
  {
    if GradeOf(r) == Clean && TierFor(r) == ImmediateBlock {
      CleanYetBlockedMeans(r);
    }
    if OneProxyOnly(r) {
      OneProxyOnlyCosts(r);
    }
  }

  lemma {:induction false} CleanYetBlockedMeans(r: Reports)
    requires GradeOf(r) == Clean && TierFor(r) == ImmediateBlock
    ensures OneProxyOnly(r)
  {
    hide AllFlags, SumBy, PortPenalty, OnlyProxy, Quiet, ProxyOpen;
    var net := NetworkOf(r);
    FlagPenalties(r.fps, net);
    var i := SomeProxy(r.fps, net);
    FlagPenalty(r.fps[i], net);
    OthersCost(r.fps, net, i);
    ProxyOnlyCost(r.fps[i], net);
    assert OthersQuiet(r, i);
  }

  lemma {:induction false} OneProxyOnlyCosts(r: Reports)
    requires OneProxyOnly(r)
    ensures GradeOf(r) == Clean && TierFor(r) == ImmediateBlock
  {
    hide AllFlags, SumBy, PortPenalty, OnlyProxy, Quiet, ProxyOpen;
    var net := NetworkOf(r);
    var i :| 0 <= i < |r.fps| && OnlyProxy(r.fps[i], net) && OthersQuiet(r, i);
    ProxyOnlyCost(r.fps[i], net);
    OthersCost(r.fps, net, i);
    ProxyFlag(r.fps, net, i);
  }

  // A host that shows one open SOCKS5 proxy and nothing else.
  function LoneProxy(): Reports { Reports([PortFp(1080, "SOCKS5", None, None, None, None, None)], [], [], {1080}, []) }

  /** Such a host is CLEAN, with 85 points, and blocked at once. */
  lemma {:induction false} LoneProxyIsClean()
    ensures ScoreOf(LoneProxy()) == 85 && GradeOf(LoneProxy()) == Clean && TierFor(LoneProxy()) == ImmediateBlock
  {
    var r := LoneProxy();
    assert OnlyProxy(r.fps[0], NetworkOf(r));
    assert OthersQuiet(r, 0);
    CleanYetBlocked(r);
    TierBoundsScore(r);
  }

  lemma {:induction false} NoRealityInCdn(fps: seq<PortFp>, net: Network)
    requires InCdn(net)
    ensures !AllFlags(fps, net).reality && !AllFlags(fps, net).impersonation
    decreases |fps|
  {
    hide IsKnownCdnAsn;
    if fps != [] { NoRealityInCdn(fps[..|fps| - 1], net); }
  }

  lemma {:induction false} CdnHasName(org: string)
    requires IsKnownCdnAsn(org)
    ensures org != ""
  { }

  /** One known CDN among the networks rules out Reality and impersonation on every port. */
  lemma {:induction false} CdnClears(r: Reports, org: string)
    requires org in r.geoOrgs && IsKnownCdnAsn(org)
    ensures !FlagsOf(r).reality && !FlagsOf(r).impersonation
    ensures StackFor(r) != XtlsReality && StackFor(r) != RealityAndAmnezia
  {
    hide IsKnownCdnAsn, AllFlags, SumBy, PortPenalty;
    CdnHasName(org);
    OrgsAre(r.geoOrgs, org);
    NoRealityInCdn(r.fps, NetworkOf(r));
  }

  lemma {:induction false} SomeImpersonates(fps: seq<PortFp>, net: Network) returns (i: nat)
    requires AllFlags(fps, net).impersonation
    ensures i < |fps| && Impersonates(fps[i], net)
    decreases |fps|
  {
    hide Impersonates;
    var n := |fps| - 1;
    if Impersonates(fps[n], net) { i := n; } else { i := SomeImpersonates(fps[..n], net); }
  }

  /** Impersonation, on findings that fit together, names a brand of the table that none of the host's networks owns. */
  lemma {:induction false} ImpersonationNamesBrand(r: Reports) returns (i: nat)
    requires FlagsOf(r).impersonation
    requires forall j :: 0 <= j < |r.fps| && r.fps[j].sni.Some? ==> Sni.Consistent(r.fps[j].sni.value, r.table)
    ensures i < |r.fps| && r.fps[i].sni.Some?
    ensures var brand := r.fps[i].sni.value.brandClaimed;
      IsBrand(r.table, brand) == Some(brand) && !AsnOwnsBrand(r.table, brand, Orgs(r.geoOrgs))
  {
    hide IsBrand, AsnOwnsBrand, AllFlags, SumBy, PortPenalty, LooksLikeCdnLb, Orgs;
    i := SomeImpersonates(r.fps, NetworkOf(r));
  }
}
