/** The verdict of orchestrator.cpp: signals, score, label, stack and block tier from the reports on a host. */
module Verdict {
  import opened Brand
  import opened Bytes
  import opened Counting
  import opened Text
  import J3
  import Sni

  datatype Tls = Tls(ok: bool, version: string, selfSigned: bool, ageDays: int)

  datatype Https = Https(
    tlsOk: bool, responded: bool, versionAnomaly: bool, serverHdr: string, hasProxyLeak: bool, hasCdnHdr: bool)

  datatype Ct = Ct(queried: bool, found: bool, err: string)

  datatype PortFp = PortFp(
    port: int, service: string, tls: Option<Tls>, sni: Option<Sni.SniConsistency>, https: Option<Https>,
    ct: Option<Ct>, j3: Option<J3.Analysis>)

  datatype UdpReply = UdpReply(port: int, responded: bool)

  datatype Signal =
    | WireGuardDefault
    | WireGuardAlternate
    | AmneziaWg
    | OpenHttpProxy(port: int)
    | OpenSocks5(port: int)
    | OldTls(port: int)
    | SelfSigned(port: int)
    | SniSteering(port: int, passthrough: bool)
    | ForeignBrand(brand: string)
    | InvalidHttpVersion(port: int)
    | NoHttpResponse(port: int)
    | NoServerHeader(port: int)
    | ProxyHeaders(port: int)
    | FreshCertNotInCt(port: int)
    | CannedFallback(port: int)
    | MalformedHttpVersion(port: int)
    | RawReplies(port: int)

  function Penalty(s: Signal): nat {
    match s
    case WireGuardDefault => 22
    case WireGuardAlternate => 4
    case AmneziaWg => 18
    case OpenHttpProxy(_) => 15
    case OpenSocks5(_) => 15
    case OldTls(_) => 5
    case SelfSigned(_) => 8
    case SniSteering(_, passthrough) => if passthrough then 20 else 16
    case ForeignBrand(_) => 18
    case InvalidHttpVersion(_) => 14
    case NoHttpResponse(_) => 8
    case NoServerHeader(_) => 4
    case ProxyHeaders(_) => 10
    case FreshCertNotInCt(_) => 10
    case CannedFallback(_) => 12
    case MalformedHttpVersion(_) => 12
    case RawReplies(_) => 6
  }

  const CDN_ASNS := [
    "cloudflare", "akamai", "fastly", "amazon", "aws", "google", "gcp", "microsoft", "azure", "edgecast",
    "edgio", "cdn77", "cachefly", "ddos-guard", "verizon media", "limelight", "stackpath", "bunny", "cloudfront",
    "netflix"]

  const CDN_SERVERS := [
    "envoy", "cloudflare", "cloudfront", "akamai", "fastly", "varnish", "gws", "awselb", "elb", "edge"]

  predicate HasToken(value: string, needles: seq<string>) { exists n :: n in needles && Contains(Lower(value), n) }

  predicate IsKnownCdnAsn(org: string) { HasToken(org, CDN_ASNS) }

  // The network a host is in: its known organisations, and the brands.
  datatype Network = Network(orgs: seq<string>, table: seq<BrandMarker>)

  predicate InCdn(net: Network) { exists org :: org in net.orgs && IsKnownCdnAsn(org) }

  predicate LooksLikeCdnLb(pf: PortFp, net: Network) {
    || InCdn(net)
    || (pf.https.Some? && (HasToken(pf.https.value.serverHdr, CDN_SERVERS) || pf.https.value.hasCdnHdr))
  }

  // ------------------------------------------------- the signals of one port

  predicate ProxyOpen(pf: PortFp) { pf.service == "HTTP-PROXY" || pf.service == "SOCKS5" }

  predicate TlsOk(pf: PortFp) { pf.tls.Some? && pf.tls.value.ok }

  predicate Reality(pf: PortFp, net: Network) { pf.sni.Some? && pf.sni.value.realityLike && !LooksLikeCdnLb(pf, net) }

  predicate Impersonates(pf: PortFp, net: Network) {
    && Reality(pf, net) && pf.sni.value.certImpersonation && pf.sni.value.brandClaimed != ""
    && !AsnOwnsBrand(net.table, pf.sni.value.brandClaimed, net.orgs)
  }

  predicate Fresh(pf: PortFp) {
    && pf.ct.Some? && pf.ct.value.queried && !pf.ct.value.found && pf.ct.value.err == ""
    && TlsOk(pf) && 0 <= pf.tls.value.ageDays < 30
  }

  predicate Canned(pf: PortFp) { pf.j3.Some? && pf.j3.value.cannedIdentical >= 2 }

  predicate BadVersion(pf: PortFp) { pf.j3.Some? && pf.j3.value.httpBadVersion >= 1 }

  function If(c: bool, s: Signal): seq<Signal> { if c then [s] else [] }

  function StrongTls(pf: PortFp): seq<Signal> { If(TlsOk(pf) && pf.tls.value.selfSigned, SelfSigned(pf.port)) }

  function SoftTls(pf: PortFp): seq<Signal> { If(TlsOk(pf) && pf.tls.value.version != "TLSv1.3", OldTls(pf.port)) }

  function StrongProxy(pf: PortFp): seq<Signal> {
    if pf.service == "HTTP-PROXY" then [OpenHttpProxy(pf.port)]
    else if pf.service == "SOCKS5" then [OpenSocks5(pf.port)]
    else []
  }

  function StrongSni(pf: PortFp, net: Network): seq<Signal> {
    if !Reality(pf, net) then []
    else
      [SniSteering(pf.port, pf.sni.value.passthroughMode)]
      + If(Impersonates(pf, net), ForeignBrand(pf.sni.value.brandClaimed))
  }

  function StrongHttps(pf: PortFp, net: Network): seq<Signal> {
    if pf.https == None || !pf.https.value.tlsOk then []
    else
      var h := pf.https.value;
      If(h.responded && h.versionAnomaly, InvalidHttpVersion(pf.port))
      + If(h.hasProxyLeak && !LooksLikeCdnLb(pf, net), ProxyHeaders(pf.port))
  }

  function SoftHttps(pf: PortFp): seq<Signal> {
    if pf.https == None || !pf.https.value.tlsOk then []
    else
      var h := pf.https.value;
      if !h.responded then [NoHttpResponse(pf.port)]
      else If(!h.versionAnomaly && h.serverHdr == "", NoServerHeader(pf.port))
  }

  function StrongJ3(pf: PortFp): seq<Signal> {
    If(Canned(pf), CannedFallback(pf.port)) + If(BadVersion(pf), MalformedHttpVersion(pf.port))
  }

  function SoftJ3(pf: PortFp): seq<Signal> {
    If(pf.j3.Some? && pf.j3.value.rawNonHttp >= 2 && pf.j3.value.httpReal == 0, RawReplies(pf.port))
  }

  function StrongOn(pf: PortFp, net: Network): seq<Signal> {
    StrongProxy(pf) + StrongTls(pf) + StrongSni(pf, net) + StrongHttps(pf, net)
      + If(Fresh(pf), FreshCertNotInCt(pf.port)) + StrongJ3(pf)
  }

  function SoftOn(pf: PortFp): seq<Signal> { SoftTls(pf) + SoftHttps(pf) + SoftJ3(pf) }

  datatype Flags = Flags(
    tls: bool, reality: bool, impersonation: bool, proxyOpen: bool, canned: bool, badVersion: bool,
    ctAbsentFresh: bool, cdnLb: bool)

  const NO_FLAGS := Flags(false, false, false, false, false, false, false, false)

  function FlagsOn(pf: PortFp, net: Network): Flags {
    Flags(TlsOk(pf), Reality(pf, net), Impersonates(pf, net), ProxyOpen(pf), Canned(pf), BadVersion(pf), Fresh(pf),
      LooksLikeCdnLb(pf, net))
  }

  function Or(a: Flags, b: Flags): Flags {
    Flags(a.tls || b.tls, a.reality || b.reality, a.impersonation || b.impersonation, a.proxyOpen || b.proxyOpen,
      a.canned || b.canned, a.badVersion || b.badVersion, a.ctAbsentFresh || b.ctAbsentFresh, a.cdnLb || b.cdnLb)
  }

  function AllFlags(fps: seq<PortFp>, net: Network): Flags {
    if fps == [] then NO_FLAGS else Or(AllFlags(fps[..|fps| - 1], net), FlagsOn(fps[|fps| - 1], net))
  }

  // ------------------------------------------------------------- ScoreBook

  class ScoreBook {
    var score: int
    var strong: seq<Signal>
    var soft: seq<Signal>

    constructor ()
      ensures Valid() && score == 100 && strong == soft == []
    {
      score, strong, soft := 100, [], [];
    }

    // The score is a hundred less the penalties of the signals listed.
    ghost predicate Valid()
      reads this
    {
      score == 100 - SumBy(strong, Penalty) - SumBy(soft, Penalty)
    }

    method StrongSignal(s: Signal, penalty: nat)
      requires Valid() && penalty == Penalty(s)
      modifies this
      ensures Valid() && strong == old(strong) + [s] && soft == old(soft)
    {
      OneMore(strong, s);
      strong := strong + [s];
      score := score - penalty;
    }

    method SoftSignal(s: Signal, penalty: nat)
      requires Valid() && penalty == Penalty(s)
      modifies this
      ensures Valid() && soft == old(soft) + [s] && strong == old(strong)
    {
      OneMore(soft, s);
      soft := soft + [s];
      score := score - penalty;
    }

    // The score comes into 0..100, and stays what it is if it is there.
    method Clamp()
      requires Valid()
      modifies this`score
      ensures 0 <= score <= 100
      ensures 0 <= old(score) <= 100 ==> score == old(score)
      ensures old(score) < score ==> score == 0
      ensures score < old(score) ==> score == 100
    {
      score := Clamped(score);
    }
  }

  function Clamped(x: int): int { if x < 0 then 0 else if x > 100 then 100 else x }

  lemma {:induction false} OneMore(signals: seq<Signal>, s: Signal)
    ensures SumBy(signals + [s], Penalty) == SumBy(signals, Penalty) + Penalty(s)
  {
    assert (signals + [s])[..|signals|] == signals;
  }

  // -------------------------------------------------------- the verdict loop

  method ScoreProxyAndTls(book: ScoreBook, pf: PortFp) returns (proxyOpen: bool, tls: bool)
    requires book.Valid()
    modifies book
    ensures book.Valid()
    ensures book.strong == old(book.strong) + StrongProxy(pf) + StrongTls(pf)
      && book.soft == old(book.soft) + SoftTls(pf)
    ensures proxyOpen == ProxyOpen(pf) && tls == TlsOk(pf)
  {
    hide ScoreBook.Valid;
    proxyOpen, tls := false, false;
    if pf.service == "HTTP-PROXY" {
      proxyOpen := true;
      book.StrongSignal(OpenHttpProxy(pf.port), 15);
    } else if pf.service == "SOCKS5" {
      proxyOpen := true;
      book.StrongSignal(OpenSocks5(pf.port), 15);
    }
    if pf.tls.Some? && pf.tls.value.ok {
      tls := true;
      if pf.tls.value.version != "TLSv1.3" {
        book.SoftSignal(OldTls(pf.port), 5);
      }
      if pf.tls.value.selfSigned {
        book.StrongSignal(SelfSigned(pf.port), 8);
      }
    }
  }

  method ScoreSni(book: ScoreBook, pf: PortFp, net: Network, cdnLbPort: bool)
    returns (reality: bool, impersonation: bool)
    requires book.Valid() && cdnLbPort == LooksLikeCdnLb(pf, net)
    modifies book
    ensures book.Valid()
    ensures book.strong == old(book.strong) + StrongSni(pf, net) && book.soft == old(book.soft)
    ensures reality == Reality(pf, net) && impersonation == Impersonates(pf, net)
  {
    hide LooksLikeCdnLb, AsnOwnsBrand, ScoreBook.Valid;
    reality, impersonation := false, false;
    if pf.sni.Some? && pf.sni.value.realityLike {
      if !cdnLbPort {
        var sni := pf.sni.value;
        reality := true;
        book.StrongSignal(SniSteering(pf.port, sni.passthroughMode), if sni.passthroughMode then 20 else 16);
        if sni.certImpersonation && sni.brandClaimed != "" {
          var owns := AsnOwnsBrand(net.table, sni.brandClaimed, net.orgs);
          if !owns {
            impersonation := true;
            book.StrongSignal(ForeignBrand(sni.brandClaimed), 18);
          }
        }
      }
    }
  }

  method ScoreHttps(book: ScoreBook, pf: PortFp, net: Network, cdnLbPort: bool)
    requires book.Valid() && cdnLbPort == LooksLikeCdnLb(pf, net)
    modifies book
    ensures book.Valid()
    ensures book.strong == old(book.strong) + StrongHttps(pf, net) && book.soft == old(book.soft) + SoftHttps(pf)
  {
    hide LooksLikeCdnLb, ScoreBook.Valid;
    if pf.https.Some? && pf.https.value.tlsOk {
      var h := pf.https.value;
      if h.responded && h.versionAnomaly {
        book.StrongSignal(InvalidHttpVersion(pf.port), 14);
      } else if !h.responded {
        book.SoftSignal(NoHttpResponse(pf.port), 8);
      } else if h.serverHdr == "" {
        book.SoftSignal(NoServerHeader(pf.port), 4);
      }
      if h.hasProxyLeak {
        if !cdnLbPort {
          book.StrongSignal(ProxyHeaders(pf.port), 10);
        }
      }
    }
  }

  method ScoreCt(book: ScoreBook, pf: PortFp) returns (absentFresh: bool)
    requires book.Valid()
    modifies book
    ensures book.Valid()
    ensures book.strong == old(book.strong) + If(Fresh(pf), FreshCertNotInCt(pf.port)) && book.soft == old(book.soft)
    ensures absentFresh == Fresh(pf)
  {
    hide ScoreBook.Valid;
    absentFresh := false;
    if pf.ct.Some? && pf.ct.value.queried && !pf.ct.value.found && pf.ct.value.err == "" {
      if pf.tls.Some? && pf.tls.value.ok && pf.tls.value.ageDays >= 0 && pf.tls.value.ageDays < 30 {
        absentFresh := true;
        book.StrongSignal(FreshCertNotInCt(pf.port), 10);
      }
    }
  }

  method ScoreJ3(book: ScoreBook, pf: PortFp) returns (canned: bool, badVersion: bool)
    requires book.Valid()
    modifies book
    ensures book.Valid()
    ensures book.strong == old(book.strong) + StrongJ3(pf) && book.soft == old(book.soft) + SoftJ3(pf)
    ensures canned == Canned(pf) && badVersion == BadVersion(pf)
  {
    hide ScoreBook.Valid;
    canned, badVersion := false, false;
    if pf.j3.Some? {
      var a := pf.j3.value;
      if a.cannedIdentical >= 2 {
        canned := true;
        book.StrongSignal(CannedFallback(pf.port), 12);
      }
      if a.httpBadVersion >= 1 {
        badVersion := true;
        book.StrongSignal(MalformedHttpVersion(pf.port), 12);
      }
      if a.rawNonHttp >= 2 && a.httpReal == 0 {
        book.SoftSignal(RawReplies(pf.port), 6);
      }
    }
  }

  // One turn of the loop over the ports.
  method ScorePort(book: ScoreBook, pf: PortFp, net: Network, flags0: Flags) returns (flags: Flags)
    requires book.Valid()
    modifies book
    ensures book.Valid()
    ensures book.strong == old(book.strong) + StrongOn(pf, net) && book.soft == old(book.soft) + SoftOn(pf)
    ensures flags == Or(flags0, FlagsOn(pf, net))
  {
    hide ScoreBook.Valid, LooksLikeCdnLb, StrongProxy, StrongTls, StrongSni, StrongHttps, StrongJ3, SoftTls, SoftHttps,
      SoftJ3, Reality, Impersonates, Fresh, Canned, BadVersion, TlsOk, ProxyOpen;
    var cdnLbPort := LooksLikeCdnLb(pf, net);
    var proxyOpen, tls := ScoreProxyAndTls(book, pf);
    var reality, impersonation := ScoreSni(book, pf, net, cdnLbPort);
    ScoreHttps(book, pf, net, cdnLbPort);
    var absentFresh := ScoreCt(book, pf);
    var canned, badVersion := ScoreJ3(book, pf);
    flags := Or(flags0, Flags(tls, reality, impersonation, proxyOpen, canned, badVersion, absentFresh, cdnLbPort));
  }

  // -------------------------------------------------------------- the verdict

  predicate RespondedOn(udp: seq<UdpReply>, port: int) { UdpReply(port, true) in udp }

  datatype Label = Clean | LowSignal | Suspicious | HighConfidence

  function LabelOf(score: int): Label {
    if score >= 85 then Clean else if score >= 70 then LowSignal else if score >= 50 then Suspicious else HighConfidence
  }

  datatype Stack = RealityAndAmnezia | XtlsReality | Amnezia | WireGuard | TlsOrigin | NoVpn

  datatype Tier = Pass | Monitor | Block | ImmediateBlock

  function TierOf(wgDefault: bool, awgDefault: bool, f: Flags): Tier {
    var b := (if f.reality then 1 else 0) + (if f.impersonation then 1 else 0)
      + (if f.canned || f.badVersion then 1 else 0);
    if wgDefault || awgDefault || f.proxyOpen then ImmediateBlock
    else if b >= 2 then Block
    else if b == 1 then Monitor
    else Pass
  }

  datatype Reports = Reports(
    fps: seq<PortFp>, geoOrgs: seq<string>, udp: seq<UdpReply>, open: set<int>, table: seq<BrandMarker>)

  datatype Outcome = Outcome(
    score: int, grade: Label, stack: Stack, tier: Tier, flags: Flags, strong: seq<Signal>, soft: seq<Signal>)

  function Orgs(geoOrgs: seq<string>): seq<string> {
    if geoOrgs == [] then []
    else
      var n := |geoOrgs| - 1;
      Orgs(geoOrgs[..n]) + if geoOrgs[n] != "" then [geoOrgs[n]] else []
  }

  function NetworkOf(r: Reports): Network { Network(Orgs(r.geoOrgs), r.table) }

  function PortPenalty(net: Network): PortFp -> nat {
    (pf: PortFp) => SumBy(StrongOn(pf, net), Penalty) + SumBy(SoftOn(pf), Penalty)
  }

  function UdpPenalty(udp: seq<UdpReply>): nat {
    (if RespondedOn(udp, 51820) then 22 else 0) + (if RespondedOn(udp, 55555) then 18 else 0)
      + (if RespondedOn(udp, 41641) then 4 else 0)
  }

  // What all the reports cost together.
  function TotalPenalty(r: Reports): nat { UdpPenalty(r.udp) + SumBy(r.fps, PortPenalty(NetworkOf(r))) }

  function StackOf(f: Flags, wgDefault: bool, wgAlt: bool, awgDefault: bool, open443: bool): Stack {
    if f.reality then if awgDefault then RealityAndAmnezia else XtlsReality
    else if awgDefault then Amnezia
    else if wgDefault || wgAlt then WireGuard
    else if f.tls && open443 then TlsOrigin
    else NoVpn
  }

  // What the reports determine.
  function FlagsOf(r: Reports): Flags { AllFlags(r.fps, NetworkOf(r)) }

  function ScoreOf(r: Reports): int { Clamped(100 - TotalPenalty(r)) }

  function GradeOf(r: Reports): Label { LabelOf(ScoreOf(r)) }

  function StackFor(r: Reports): Stack {
    StackOf(FlagsOf(r), RespondedOn(r.udp, 51820), RespondedOn(r.udp, 41641), RespondedOn(r.udp, 55555), 443 in r.open)
  }

  function TierFor(r: Reports): Tier { TierOf(RespondedOn(r.udp, 51820), RespondedOn(r.udp, 55555), FlagsOf(r)) }

  // The signals in the order in which they are listed: UDP first, then port by port.
  function StrongAll(fps: seq<PortFp>, net: Network): seq<Signal> {
    if fps == [] then [] else StrongAll(fps[..|fps| - 1], net) + StrongOn(fps[|fps| - 1], net)
  }

  function SoftAll(fps: seq<PortFp>): seq<Signal> {
    if fps == [] then [] else SoftAll(fps[..|fps| - 1]) + SoftOn(fps[|fps| - 1])
  }

  function StrongUdp(wgDefault: bool, awgDefault: bool): seq<Signal> {
    If(wgDefault, WireGuardDefault) + If(awgDefault, AmneziaWg)
  }

  function StrongFor(r: Reports): seq<Signal> {
    StrongUdp(RespondedOn(r.udp, 51820), RespondedOn(r.udp, 55555)) + StrongAll(r.fps, NetworkOf(r))
  }

  function SoftFor(r: Reports): seq<Signal> {
    If(RespondedOn(r.udp, 41641), WireGuardAlternate) + SoftAll(r.fps)
  }

  ghost predicate Assessed(r: Reports, o: Outcome) {
    && o.flags == FlagsOf(r) && o.score == ScoreOf(r) && o.grade == GradeOf(r)
    && o.stack == StackFor(r) && o.tier == TierFor(r)
    && o.strong == StrongFor(r) && o.soft == SoftFor(r)
    && SumBy(o.strong, Penalty) + SumBy(o.soft, Penalty) == TotalPenalty(r)
  }

  ghost function Charged(book: ScoreBook): int
    reads book
  {
    SumBy(book.strong, Penalty) + SumBy(book.soft, Penalty)
  }

  // The loop over the ports.
  method ScorePorts(book: ScoreBook, fps: seq<PortFp>, net: Network) returns (flags: Flags)
    requires book.Valid()
    modifies book
    ensures book.Valid() && flags == AllFlags(fps, net)
    ensures Charged(book) == old(Charged(book)) + SumBy(fps, PortPenalty(net))
    ensures book.strong == old(book.strong) + StrongAll(fps, net) && book.soft == old(book.soft) + SoftAll(fps)
  {
    hide StrongOn, SoftOn, FlagsOn, SumBy, ScoreBook.Valid;
    flags := NO_FLAGS;
    assert fps[..0] == [];
    NoPorts(net);
    for i := 0 to |fps|
      invariant book.Valid() && flags == AllFlags(fps[..i], net)
      invariant Charged(book) == old(Charged(book)) + SumBy(fps[..i], PortPenalty(net))
      invariant book.strong == old(book.strong) + StrongAll(fps[..i], net)
      invariant book.soft == old(book.soft) + SoftAll(fps[..i])
    {
      SumConcat(book.strong, StrongOn(fps[i], net), Penalty);
      SumConcat(book.soft, SoftOn(fps[i]), Penalty);
      SumNext(fps, i, PortPenalty(net));
      assert fps[..i + 1][..i] == fps[..i];
      flags := ScorePort(book, fps[i], net, flags);
    }
    assert fps[..|fps|] == fps;
  }

  method Assess(r: Reports) returns (o: Outcome)
    ensures Assessed(r, o)
  {
    hide RespondedOn, AllFlags, PortPenalty, SumBy, StrongAll, SoftAll, NetworkOf;
    var book := new ScoreBook();
    var wgDefault, wgAlt, awgDefault := RespondedOn(r.udp, 51820), RespondedOn(r.udp, 41641), RespondedOn(r.udp, 55555);
    ScoreUdp(book, wgDefault, wgAlt, awgDefault);
    var flags := ScorePorts(book, r.fps, NetworkOf(r));
    book.Clamp();
    var grade, stack := Name(book.score, flags, wgDefault, wgAlt, awgDefault, 443 in r.open);
    var tier := Classify(flags, wgDefault, awgDefault);
    o := Outcome(book.score, grade, stack, tier, flags, book.strong, book.soft);
  }

  // The label and the stack: each label is an interval of scores, the two
  // Reality stacks say that Reality was seen, the two Amnezia stacks that
  // AmneziaWG answered, and the other stacks that neither did.
  method Name(score: int, f: Flags, wgDefault: bool, wgAlt: bool, awgDefault: bool, open443: bool)
    returns (grade: Label, stack: Stack)
    ensures grade == Clean <==> 85 <= score
    ensures grade == LowSignal <==> 70 <= score <= 84
    ensures grade == Suspicious <==> 50 <= score <= 69
    ensures grade == HighConfidence <==> score <= 49
    ensures stack == XtlsReality || stack == RealityAndAmnezia <==> f.reality
    ensures stack == Amnezia || stack == RealityAndAmnezia <==> awgDefault
    ensures stack == WireGuard <==> (wgDefault || wgAlt) && !f.reality && !awgDefault
    ensures stack == NoVpn ==> !f.tls || !open443
    ensures stack == TlsOrigin ==> f.tls && open443 && !wgDefault && !wgAlt
  {
    if score >= 85 {
      grade := Clean;
    } else if score >= 70 {
      grade := LowSignal;
    } else if score >= 50 {
      grade := Suspicious;
    } else {
      grade := HighConfidence;
    }
    if f.reality && awgDefault {
      stack := RealityAndAmnezia;
    } else if f.reality {
      stack := XtlsReality;
    } else if awgDefault {
      stack := Amnezia;
    } else if wgDefault || wgAlt {
      stack := WireGuard;
    } else if f.tls && open443 {
      stack := TlsOrigin;
    } else {
      stack := NoVpn;
    }
  }

  datatype Rule = Rule(hit: bool, tierA: bool)

  function HitsOf(rules: seq<Rule>, tierA: bool): nat { Count(rules, (r: Rule) => r.hit && r.tierA == tierA) }

  // The tier from the six rules.
  method Classify(f: Flags, wgDefault: bool, awgDefault: bool) returns (tier: Tier)
    ensures tier == TierOf(wgDefault, awgDefault, f)
  {
    var rules := [
      Rule(wgDefault, true), Rule(awgDefault, true), Rule(f.proxyOpen, true),
      Rule(f.reality, false), Rule(f.impersonation, false), Rule(f.canned || f.badVersion, false)];
    var aHits, bHits := CountHits(rules);
    SixRules(rules);
    if aHits > 0 {
      tier := ImmediateBlock;
    } else if bHits >= 2 {
      tier := Block;
    } else if bHits == 1 {
      tier := Monitor;
    } else {
      tier := Pass;
    }
  }

  method CountHits(rules: seq<Rule>) returns (aHits: nat, bHits: nat)
    ensures aHits == HitsOf(rules, true) && bHits == HitsOf(rules, false)
  {
    aHits, bHits := 0, 0;
    for i := 0 to |rules|
      invariant aHits == HitsOf(rules[..i], true) && bHits == HitsOf(rules[..i], false)
    {
      assert rules[..i + 1][..i] == rules[..i];
      if !rules[i].hit { continue; }
      if rules[i].tierA { aHits := aHits + 1; } else { bHits := bHits + 1; }
    }
    assert rules[..|rules|] == rules;
  }

  lemma {:induction false} SixRules(rules: seq<Rule>)
    requires |rules| == 6 && forall i :: 0 <= i < 6 ==> (rules[i].tierA <==> i < 3)
    ensures HitsOf(rules, true) > 0 <==> rules[0].hit || rules[1].hit || rules[2].hit
    ensures HitsOf(rules, false) ==
      (if rules[3].hit then 1 else 0) + (if rules[4].hit then 1 else 0) + (if rules[5].hit then 1 else 0)
  {
    OneRule(rules, 0);
    OneRule(rules, 1);
    OneRule(rules, 2);
    OneRule(rules, 3);
    OneRule(rules, 4);
    OneRule(rules, 5);
    assert rules[..6] == rules && HitsOf(rules[..0], true) == HitsOf(rules[..0], false) == 0;
  }

  lemma {:induction false} OneRule(rules: seq<Rule>, i: nat)
    requires i < |rules|
    ensures HitsOf(rules[..i + 1], true) == HitsOf(rules[..i], true) + if rules[i].hit && rules[i].tierA then 1 else 0
    ensures HitsOf(rules[..i + 1], false) ==
      HitsOf(rules[..i], false) + if rules[i].hit && !rules[i].tierA then 1 else 0
  {
    assert rules[..i + 1][..i] == rules[..i];
  }

  method ScoreUdp(book: ScoreBook, wgDefault: bool, wgAlt: bool, awgDefault: bool)
    requires book.Valid() && book.strong == [] && book.soft == []
    modifies book
    ensures book.Valid()
    ensures SumBy(book.strong, Penalty) + SumBy(book.soft, Penalty) ==
      (if wgDefault then 22 else 0) + (if awgDefault then 18 else 0) + (if wgAlt then 4 else 0)
    ensures book.strong == StrongUdp(wgDefault, awgDefault) && book.soft == If(wgAlt, WireGuardAlternate)
  {
    hide ScoreBook.Valid;
    if wgDefault {
      OneMore(book.strong, WireGuardDefault);
      book.StrongSignal(WireGuardDefault, 22);
    }
    if wgAlt {
      OneMore(book.soft, WireGuardAlternate);
      book.SoftSignal(WireGuardAlternate, 4);
    }
    if awgDefault {
      OneMore(book.strong, AmneziaWg);
      book.StrongSignal(AmneziaWg, 18);
    }
  }

  lemma {:induction false} NoPorts(net: Network)
    ensures AllFlags([], net) == NO_FLAGS && SumBy([], PortPenalty(net)) == 0
    ensures StrongAll([], net) == SoftAll([]) == []
  { }
}
