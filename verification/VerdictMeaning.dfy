/**
  The verdict of orchestrator.cpp said of the reports themselves: which signals
  are listed, what the score adds up to, and what each flag and tier stands for.
*/
module VerdictMeaning {
  import opened Brand
  import opened Bytes
  import opened Counting
  import opened Text
  import opened Verdict
  import opened VerdictProof
  import Sni

  // ------------------------------------------------------------------ CDNs

  predicate MentionsOne(text: string, names: seq<string>) { exists n :: n in names && Mentions(text, n) }

  lemma {:induction false} TokenMeans(text: string, names: seq<string>)
    requires forall n :: n in names ==> NoUpper(n)
    ensures HasToken(text, names) <==> MentionsOne(text, names)
  {
    hide Lower, Contains, Mentions, NoUpper;
    forall n | n in names ensures Contains(Lower(text), n) <==> Mentions(text, n) { ContainsMeans(text, n); }
  }

  lemma {:induction false} CdnNames()
    ensures forall n :: n in CDN_ASNS ==> NoUpper(n) && n != ""
  {
    assert forall i :: 0 <= i < |CDN_ASNS| ==> NoUpper(CDN_ASNS[i]) && CDN_ASNS[i] != "";
  }

  lemma {:induction false} ServerNames()
    ensures forall n :: n in CDN_SERVERS ==> NoUpper(n)
  {
    assert forall i :: 0 <= i < |CDN_SERVERS| ==> NoUpper(CDN_SERVERS[i]);
  }

  /** An organisation is a known CDN exactly when its text has one of the listed names in it, in any case. */
  lemma {:induction false} KnownCdnMeans(org: string)
    ensures IsKnownCdnAsn(org) <==> MentionsOne(org, CDN_ASNS)
  {
    CdnNames();
    TokenMeans(org, CDN_ASNS);
  }

  // The host is in a known CDN, or the port's HTTPS answer is from one.
  ghost predicate BehindCdn(r: Reports, pf: PortFp) {
    || (exists org :: org in r.geoOrgs && MentionsOne(org, CDN_ASNS))
    || (pf.https.Some? && (MentionsOne(pf.https.value.serverHdr, CDN_SERVERS) || pf.https.value.hasCdnHdr))
  }

  lemma {:induction false} NoCdnInNothing()
    ensures !MentionsOne("", CDN_ASNS)
  {
    CdnNames();
    forall n | n in CDN_ASNS ensures !Mentions("", n) { }
  }

  lemma {:induction false} InCdnMeans(r: Reports)
    ensures InCdn(NetworkOf(r)) <==> exists org :: org in r.geoOrgs && MentionsOne(org, CDN_ASNS)
  {
    hide MentionsOne, IsKnownCdnAsn, Orgs;
    NoCdnInNothing();
    if InCdn(NetworkOf(r)) {
      var org :| org in NetworkOf(r).orgs && IsKnownCdnAsn(org);
      KnownCdnMeans(org);
      OrgsAre(r.geoOrgs, org);
    }
    if org :| org in r.geoOrgs && MentionsOne(org, CDN_ASNS) {
      KnownCdnMeans(org);
      OrgsAre(r.geoOrgs, org);
      assert org in NetworkOf(r).orgs;
    }
  }

  /** A port looks like a CDN's exactly when a network of the host is one or its HTTPS answer says so. */
  lemma {:induction false} BehindCdnMeans(r: Reports, pf: PortFp)
    ensures LooksLikeCdnLb(pf, NetworkOf(r)) <==> BehindCdn(r, pf)
  {
    hide MentionsOne, HasToken, InCdn, NetworkOf;
    InCdnMeans(r);
    ServerNames();
    if pf.https.Some? { TokenMeans(pf.https.value.serverHdr, CDN_SERVERS); }
  }

  // ---------------------------------------------------------- the signals

  ghost predicate Steers(r: Reports, pf: PortFp) {
    pf.sni.Some? && pf.sni.value.realityLike && !BehindCdn(r, pf)
  }

  ghost predicate Impostor(r: Reports, pf: PortFp) {
    && Steers(r, pf) && pf.sni.value.certImpersonation && pf.sni.value.brandClaimed != ""
    && !AsnOwnsBrand(r.table, pf.sni.value.brandClaimed, Orgs(r.geoOrgs))
  }

  // The port's report calls for the signal.
  ghost predicate Found(r: Reports, pf: PortFp, s: Signal) {
    match s
    case OpenHttpProxy(port) => port == pf.port && pf.service == "HTTP-PROXY"
    case OpenSocks5(port) => port == pf.port && pf.service == "SOCKS5"
    case OldTls(port) => port == pf.port && pf.tls.Some? && pf.tls.value.ok && pf.tls.value.version != "TLSv1.3"
    case SelfSigned(port) => port == pf.port && pf.tls.Some? && pf.tls.value.ok && pf.tls.value.selfSigned
    case SniSteering(port, passthrough) =>
      port == pf.port && Steers(r, pf) && passthrough == pf.sni.value.passthroughMode
    case ForeignBrand(brand) => Impostor(r, pf) && brand == pf.sni.value.brandClaimed
    case InvalidHttpVersion(port) =>
      && port == pf.port && pf.https.Some? && pf.https.value.tlsOk
      && pf.https.value.responded && pf.https.value.versionAnomaly
    case NoHttpResponse(port) =>
      port == pf.port && pf.https.Some? && pf.https.value.tlsOk && !pf.https.value.responded
    case NoServerHeader(port) =>
      && port == pf.port && pf.https.Some? && pf.https.value.tlsOk
      && pf.https.value.responded && !pf.https.value.versionAnomaly && pf.https.value.serverHdr == ""
    case ProxyHeaders(port) =>
      && port == pf.port && pf.https.Some? && pf.https.value.tlsOk
      && pf.https.value.hasProxyLeak && !BehindCdn(r, pf)
    case FreshCertNotInCt(port) =>
      && port == pf.port && pf.ct.Some? && pf.ct.value.queried && !pf.ct.value.found && pf.ct.value.err == ""
      && pf.tls.Some? && pf.tls.value.ok && 0 <= pf.tls.value.ageDays <= 29
    case CannedFallback(port) => port == pf.port && pf.j3.Some? && pf.j3.value.cannedIdentical >= 2
    case MalformedHttpVersion(port) => port == pf.port && pf.j3.Some? && pf.j3.value.httpBadVersion >= 1
    case RawReplies(port) =>
      port == pf.port && pf.j3.Some? && pf.j3.value.rawNonHttp >= 2 && pf.j3.value.httpReal == 0
    case _ => false
  }

  predicate SoftKind(s: Signal) {
    s.OldTls? || s.NoHttpResponse? || s.NoServerHeader? || s.RawReplies? || s.WireGuardAlternate?
  }

  lemma {:induction false} InProxy(r: Reports, pf: PortFp, s: Signal)
    ensures s in StrongProxy(pf) <==> Found(r, pf, s) && (s.OpenHttpProxy? || s.OpenSocks5?)
  {
    hide LooksLikeCdnLb, BehindCdn, AsnOwnsBrand, Orgs, Steers, Impostor;
    BehindCdnMeans(r, pf);
  }

  lemma {:induction false} InTls(r: Reports, pf: PortFp, s: Signal)
    ensures s in StrongTls(pf) <==> Found(r, pf, s) && (s.SelfSigned?)
  {
    hide LooksLikeCdnLb, BehindCdn, AsnOwnsBrand, Orgs, Steers, Impostor;
    BehindCdnMeans(r, pf);
  }

  lemma {:induction false} InSni(r: Reports, pf: PortFp, s: Signal)
    ensures s in StrongSni(pf, NetworkOf(r)) <==> Found(r, pf, s) && (s.SniSteering? || s.ForeignBrand?)
  {
    hide LooksLikeCdnLb, BehindCdn, AsnOwnsBrand, Orgs;
    BehindCdnMeans(r, pf);
  }

  lemma {:induction false} InHttps(r: Reports, pf: PortFp, s: Signal)
    ensures s in StrongHttps(pf, NetworkOf(r)) <==> Found(r, pf, s) && (s.InvalidHttpVersion? || s.ProxyHeaders?)
  {
    hide LooksLikeCdnLb, BehindCdn, AsnOwnsBrand, Orgs, Steers, Impostor;
    BehindCdnMeans(r, pf);
  }

  lemma {:induction false} InCt(r: Reports, pf: PortFp, s: Signal)
    ensures s in If(Fresh(pf), FreshCertNotInCt(pf.port)) <==> Found(r, pf, s) && (s.FreshCertNotInCt?)
  {
    hide LooksLikeCdnLb, BehindCdn, AsnOwnsBrand, Orgs, Steers, Impostor;
    BehindCdnMeans(r, pf);
  }

  lemma {:induction false} InJ3(r: Reports, pf: PortFp, s: Signal)
    ensures s in StrongJ3(pf) <==> Found(r, pf, s) && (s.CannedFallback? || s.MalformedHttpVersion?)
  {
    hide LooksLikeCdnLb, BehindCdn, AsnOwnsBrand, Orgs, Steers, Impostor;
    BehindCdnMeans(r, pf);
  }

  lemma {:induction false} StrongMeans(r: Reports, pf: PortFp, s: Signal)
    ensures s in StrongOn(pf, NetworkOf(r)) <==> Found(r, pf, s) && !SoftKind(s)
  {
    InProxy(r, pf, s);
    InTls(r, pf, s);
    InSni(r, pf, s);
    InHttps(r, pf, s);
    InCt(r, pf, s);
    InJ3(r, pf, s);
    NoUdp(r, pf, s);
    hide StrongProxy, StrongTls, StrongSni, StrongHttps, If, Fresh, StrongJ3, Found, NetworkOf;
  }

  lemma {:induction false} NoUdp(r: Reports, pf: PortFp, s: Signal)
    ensures Found(r, pf, s) ==> !s.WireGuardDefault? && !s.WireGuardAlternate? && !s.AmneziaWg?
  { }

  lemma {:induction false} SoftMeans(r: Reports, pf: PortFp, s: Signal)
    ensures s in SoftOn(pf) <==> Found(r, pf, s) && SoftKind(s)
  {
    hide LooksLikeCdnLb, BehindCdn, AsnOwnsBrand, Orgs, Steers, Impostor;
  }

  lemma {:induction false} AllStrongMeans(r: Reports, fps: seq<PortFp>, s: Signal)
    ensures s in StrongAll(fps, NetworkOf(r)) <==> !SoftKind(s) && exists pf :: pf in fps && Found(r, pf, s)
    decreases |fps|
  {
    hide StrongOn, Found, SoftKind, NetworkOf;
    if fps != [] {
      var n := |fps| - 1;
      AllStrongMeans(r, fps[..n], s);
      StrongMeans(r, fps[n], s);
      assert fps == fps[..n] + [fps[n]];
    }
  }

  lemma {:induction false} AllSoftMeans(r: Reports, fps: seq<PortFp>, s: Signal)
    ensures s in SoftAll(fps) <==> SoftKind(s) && exists pf :: pf in fps && Found(r, pf, s)
    decreases |fps|
  {
    hide SoftOn, Found, SoftKind;
    if fps != [] {
      var n := |fps| - 1;
      AllSoftMeans(r, fps[..n], s);
      SoftMeans(r, fps[n], s);
      assert fps == fps[..n] + [fps[n]];
    }
  }

  // A UDP port has answered the handshake that the signal is about.
  predicate Answered(r: Reports, s: Signal) {
    match s
    case WireGuardDefault => UdpReply(51820, true) in r.udp
    case WireGuardAlternate => UdpReply(41641, true) in r.udp
    case AmneziaWg => UdpReply(55555, true) in r.udp
    case _ => false
  }

  /** A signal is listed exactly when a UDP reply or some port's report calls for it, and in the list of its kind. */
  lemma {:induction false} ListedMeans(r: Reports, s: Signal)
    ensures s in StrongFor(r) <==> !SoftKind(s) && (Answered(r, s) || exists pf :: pf in r.fps && Found(r, pf, s))
    ensures s in SoftFor(r) <==> SoftKind(s) && (Answered(r, s) || exists pf :: pf in r.fps && Found(r, pf, s))
  {
    hide StrongAll, SoftAll, Found, NetworkOf;
    AllStrongMeans(r, r.fps, s);
    AllSoftMeans(r, r.fps, s);
  }

  // ------------------------------------------------------------- the score

  function One(c: bool): nat { if c then 1 else 0 }

  lemma {:induction false} SumNone()
    ensures SumBy([], Penalty) == 0
  { }

  lemma {:induction false} SumIf(c: bool, s: Signal)
    ensures SumBy(If(c, s), Penalty) == Penalty(s) * One(c)
  {
    if c { OneSum(s); } else { SumNone(); }
  }

  lemma {:induction false} ProxyCosts(r: Reports, pf: PortFp)
    ensures SumBy(StrongProxy(pf), Penalty) ==
      15 * One(Found(r, pf, OpenHttpProxy(pf.port))) + 15 * One(Found(r, pf, OpenSocks5(pf.port)))
  {
    hide SumBy;
    SumNone();
    OneSum(OpenHttpProxy(pf.port));
    OneSum(OpenSocks5(pf.port));
  }

  lemma {:induction false} TlsCosts(r: Reports, pf: PortFp)
    ensures SumBy(StrongTls(pf), Penalty) == 8 * One(Found(r, pf, SelfSigned(pf.port)))
    ensures SumBy(SoftTls(pf), Penalty) == 5 * One(Found(r, pf, OldTls(pf.port)))
  {
    hide SumBy, If;
    SumIf(TlsOk(pf) && pf.tls.value.selfSigned, SelfSigned(pf.port));
    SumIf(TlsOk(pf) && pf.tls.value.version != "TLSv1.3", OldTls(pf.port));
  }

  // The brand that the port's certificate claims.
  function Claim(pf: PortFp): string { if pf.sni.Some? then pf.sni.value.brandClaimed else "" }

  lemma {:induction false} SniCosts(r: Reports, pf: PortFp)
    ensures SumBy(StrongSni(pf, NetworkOf(r)), Penalty) ==
      16 * One(Found(r, pf, SniSteering(pf.port, false))) + 20 * One(Found(r, pf, SniSteering(pf.port, true)))
      + 18 * One(Found(r, pf, ForeignBrand(Claim(pf))))
  {
    hide SumBy, If, LooksLikeCdnLb, BehindCdn, AsnOwnsBrand, Orgs;
    BehindCdnMeans(r, pf);
    SumNone();
    if Reality(pf, NetworkOf(r)) {
      var steering := SniSteering(pf.port, pf.sni.value.passthroughMode);
      var brand := If(Impersonates(pf, NetworkOf(r)), ForeignBrand(pf.sni.value.brandClaimed));
      OneSum(steering);
      SumIf(Impersonates(pf, NetworkOf(r)), ForeignBrand(pf.sni.value.brandClaimed));
      SumConcat([steering], brand, Penalty);
    }
  }

  lemma {:induction false} HttpsCosts(r: Reports, pf: PortFp)
    ensures SumBy(StrongHttps(pf, NetworkOf(r)), Penalty) ==
      14 * One(Found(r, pf, InvalidHttpVersion(pf.port))) + 10 * One(Found(r, pf, ProxyHeaders(pf.port)))
  {
    hide SumBy, If, LooksLikeCdnLb, BehindCdn, NetworkOf;
    BehindCdnMeans(r, pf);
    SumNone();
    if pf.https.Some? && pf.https.value.tlsOk {
      var h := pf.https.value;
      var bad, leaks := h.responded && h.versionAnomaly, h.hasProxyLeak && !LooksLikeCdnLb(pf, NetworkOf(r));
      SumIf(bad, InvalidHttpVersion(pf.port));
      SumIf(leaks, ProxyHeaders(pf.port));
      SumConcat(If(bad, InvalidHttpVersion(pf.port)), If(leaks, ProxyHeaders(pf.port)), Penalty);
    }
  }

  lemma {:induction false} SoftHttpsCosts(r: Reports, pf: PortFp)
    ensures SumBy(SoftHttps(pf), Penalty) ==
      8 * One(Found(r, pf, NoHttpResponse(pf.port))) + 4 * One(Found(r, pf, NoServerHeader(pf.port)))
  {
    hide SumBy, If;
    SumNone();
    OneSum(NoHttpResponse(pf.port));
    if pf.https.Some? && pf.https.value.tlsOk {
      var h := pf.https.value;
      SumIf(!h.versionAnomaly && h.serverHdr == "", NoServerHeader(pf.port));
    }
  }

  lemma {:induction false} OtherCosts(r: Reports, pf: PortFp)
    ensures SumBy(If(Fresh(pf), FreshCertNotInCt(pf.port)), Penalty) ==
      10 * One(Found(r, pf, FreshCertNotInCt(pf.port)))
    ensures SumBy(StrongJ3(pf), Penalty) ==
      12 * One(Found(r, pf, CannedFallback(pf.port))) + 12 * One(Found(r, pf, MalformedHttpVersion(pf.port)))
    ensures SumBy(SoftJ3(pf), Penalty) == 6 * One(Found(r, pf, RawReplies(pf.port)))
  {
    hide SumBy, If;
    SumIf(Fresh(pf), FreshCertNotInCt(pf.port));
    SumIf(Canned(pf), CannedFallback(pf.port));
    SumIf(BadVersion(pf), MalformedHttpVersion(pf.port));
    SumConcat(If(Canned(pf), CannedFallback(pf.port)), If(BadVersion(pf), MalformedHttpVersion(pf.port)), Penalty);
    SumIf(pf.j3.Some? && pf.j3.value.rawNonHttp >= 2 && pf.j3.value.httpReal == 0, RawReplies(pf.port));
  }

  // What a port's report costs, signal by signal.
  ghost function CostOf(r: Reports, pf: PortFp): nat {
    15 * One(Found(r, pf, OpenHttpProxy(pf.port))) + 15 * One(Found(r, pf, OpenSocks5(pf.port)))
    + 8 * One(Found(r, pf, SelfSigned(pf.port))) + 5 * One(Found(r, pf, OldTls(pf.port)))
    + 16 * One(Found(r, pf, SniSteering(pf.port, false))) + 20 * One(Found(r, pf, SniSteering(pf.port, true)))
    + 18 * One(Found(r, pf, ForeignBrand(Claim(pf))))
    + 14 * One(Found(r, pf, InvalidHttpVersion(pf.port))) + 10 * One(Found(r, pf, ProxyHeaders(pf.port)))
    + 8 * One(Found(r, pf, NoHttpResponse(pf.port))) + 4 * One(Found(r, pf, NoServerHeader(pf.port)))
    + 10 * One(Found(r, pf, FreshCertNotInCt(pf.port)))
    + 12 * One(Found(r, pf, CannedFallback(pf.port))) + 12 * One(Found(r, pf, MalformedHttpVersion(pf.port)))
    + 6 * One(Found(r, pf, RawReplies(pf.port)))
  }

  lemma {:induction false} SumSix(
      a: seq<Signal>, b: seq<Signal>, c: seq<Signal>, d: seq<Signal>, e: seq<Signal>, f: seq<Signal>)
    ensures SumBy(a + b + c + d + e + f, Penalty) ==
      SumBy(a, Penalty) + SumBy(b, Penalty) + SumBy(c, Penalty) + SumBy(d, Penalty) + SumBy(e, Penalty)
      + SumBy(f, Penalty)
  {
    hide SumBy;
    SumConcat(a + b + c + d + e, f, Penalty);
    SumConcat(a + b + c + d, e, Penalty);
    SumConcat(a + b + c, d, Penalty);
    SumConcat(a + b, c, Penalty);
    SumConcat(a, b, Penalty);
  }

  lemma {:induction false} PortCosts(r: Reports, pf: PortFp)
    ensures PortPenalty(NetworkOf(r))(pf) == CostOf(r, pf)
  {
    hide SumBy, Found, StrongProxy, StrongTls, StrongSni, StrongHttps, StrongJ3, SoftTls, SoftHttps, SoftJ3, If, Fresh,
      One, NetworkOf, Claim;
    var net := NetworkOf(r);
    ProxyCosts(r, pf);
    TlsCosts(r, pf);
    SniCosts(r, pf);
    HttpsCosts(r, pf);
    SoftHttpsCosts(r, pf);
    OtherCosts(r, pf);
    SumSix(
      StrongProxy(pf), StrongTls(pf), StrongSni(pf, net), StrongHttps(pf, net),
      If(Fresh(pf), FreshCertNotInCt(pf.port)), StrongJ3(pf));
    SumConcat(SoftTls(pf) + SoftHttps(pf), SoftJ3(pf), Penalty);
    SumConcat(SoftTls(pf), SoftHttps(pf), Penalty);
  }

  lemma {:induction false} SumSameCosts(fps: seq<PortFp>, f: PortFp -> nat, g: PortFp -> nat)
    requires forall pf :: f(pf) == g(pf)
    ensures SumBy(fps, f) == SumBy(fps, g)
    decreases |fps|
  {
    if fps != [] { SumSameCosts(fps[..|fps| - 1], f, g); }
  }

  /**
    The score of a host: a hundred, less 22, 18 and 4 for the three UDP handshakes
    and less what each port's report costs, signal by signal, brought into 0..100.
  */
  lemma {:induction false} ScoreMeans(r: Reports)
    ensures var left := 100
      - 22 * One(UdpReply(51820, true) in r.udp) - 18 * One(UdpReply(55555, true) in r.udp)
      - 4 * One(UdpReply(41641, true) in r.udp) - SumBy(r.fps, (pf: PortFp) => CostOf(r, pf));
      ScoreOf(r) == if left < 0 then 0 else left
  {
    hide SumBy, CostOf, PortPenalty, NetworkOf;
    forall pf ensures PortPenalty(NetworkOf(r))(pf) == CostOf(r, pf) { PortCosts(r, pf); }
    SumSameCosts(r.fps, PortPenalty(NetworkOf(r)), (pf: PortFp) => CostOf(r, pf));
  }

  // -------------------------------------------------------- flags and tiers

  // What the flags of a list of ports stand for.
  ghost predicate FlagsStand(f: Flags, r: Reports, fps: seq<PortFp>) {
    && (f.tls <==> exists pf :: pf in fps && pf.tls.Some? && pf.tls.value.ok)
    && (f.reality <==> exists pf :: pf in fps && Steers(r, pf))
    && (f.impersonation <==> exists pf :: pf in fps && Impostor(r, pf))
    && (f.proxyOpen <==> exists pf :: pf in fps && (pf.service == "HTTP-PROXY" || pf.service == "SOCKS5"))
    && (f.canned <==> exists pf :: pf in fps && Found(r, pf, CannedFallback(pf.port)))
    && (f.badVersion <==> exists pf :: pf in fps && Found(r, pf, MalformedHttpVersion(pf.port)))
    && (f.ctAbsentFresh <==> exists pf :: pf in fps && Found(r, pf, FreshCertNotInCt(pf.port)))
    && (f.cdnLb <==> exists pf :: pf in fps && BehindCdn(r, pf))
  }

  lemma {:induction false} PortFlagsStand(r: Reports, pf: PortFp)
    ensures var f := FlagsOn(pf, NetworkOf(r));
      && (f.tls <==> pf.tls.Some? && pf.tls.value.ok)
      && (f.reality <==> Steers(r, pf)) && (f.impersonation <==> Impostor(r, pf))
      && (f.proxyOpen <==> pf.service == "HTTP-PROXY" || pf.service == "SOCKS5")
      && (f.canned <==> Found(r, pf, CannedFallback(pf.port)))
      && (f.badVersion <==> Found(r, pf, MalformedHttpVersion(pf.port)))
      && (f.ctAbsentFresh <==> Found(r, pf, FreshCertNotInCt(pf.port)))
      && (f.cdnLb <==> BehindCdn(r, pf))
  {
    hide LooksLikeCdnLb, BehindCdn, AsnOwnsBrand, Orgs;
    BehindCdnMeans(r, pf);
  }

  lemma {:induction false} FlagsOfMore(f: Flags, g: Flags, r: Reports, fps: seq<PortFp>, pf: PortFp)
    requires FlagsStand(f, r, fps) && FlagsStand(g, r, [pf])
    ensures FlagsStand(Or(f, g), r, fps + [pf])
  {
    hide Steers, Impostor, BehindCdn, Found;
    assert pf in fps + [pf];
    assert forall p :: p in fps + [pf] <==> p in fps || p == pf;
  }

  lemma {:induction false} AllFlagsStand(r: Reports, fps: seq<PortFp>)
    ensures FlagsStand(AllFlags(fps, NetworkOf(r)), r, fps)
    decreases |fps|
  {
    hide Steers, Impostor, BehindCdn, Found, FlagsOn, NetworkOf, Or;
    if fps != [] {
      var n := |fps| - 1;
      AllFlagsStand(r, fps[..n]);
      PortFlagsStand(r, fps[n]);
      assert forall p :: p in [fps[n]] <==> p == fps[n];
      FlagsOfMore(AllFlags(fps[..n], NetworkOf(r)), FlagsOn(fps[n], NetworkOf(r)), r, fps[..n], fps[n]);
      assert fps == fps[..n] + [fps[n]];
    }
  }

  /** Each flag of a host says that some port's report meets its condition. */
  lemma {:induction false} FlagsMean(r: Reports)
    ensures FlagsStand(FlagsOf(r), r, r.fps)
  {
    hide FlagsStand;
    AllFlagsStand(r, r.fps);
  }

  // What counts for an immediate block, and the three things two of which make an accumulative one.
  ghost predicate Blatant(r: Reports) {
    || UdpReply(51820, true) in r.udp || UdpReply(55555, true) in r.udp
    || exists pf :: pf in r.fps && (pf.service == "HTTP-PROXY" || pf.service == "SOCKS5")
  }

  ghost predicate SomeSteers(r: Reports) { exists pf :: pf in r.fps && Steers(r, pf) }

  ghost predicate SomeImpostor(r: Reports) { exists pf :: pf in r.fps && Impostor(r, pf) }

  ghost predicate SomeAnomaly(r: Reports) {
    exists pf :: pf in r.fps && pf.j3.Some? && (pf.j3.value.cannedIdentical >= 2 || pf.j3.value.httpBadVersion >= 1)
  }

  /**
    The tier: an immediate block on a VPN handshake or an open proxy, and else by
    how many of the other three there are.
  */
  lemma {:induction false} TierMeans(r: Reports)
    ensures TierFor(r) == ImmediateBlock <==> Blatant(r)
    ensures var a, b, c := SomeSteers(r), SomeImpostor(r), SomeAnomaly(r);
      && (TierFor(r) == Block <==> !Blatant(r) && ((a && b) || (a && c) || (b && c)))
      && (TierFor(r) == Pass <==> !Blatant(r) && !a && !b && !c)
  {
    hide Steers, Impostor, FlagsOf, AllFlags;
    FlagsMean(r);
    AnomalyMeans(r);
  }

  lemma {:induction false} AnomalyMeans(r: Reports)
    ensures SomeAnomaly(r) <==> FlagsOf(r).canned || FlagsOf(r).badVersion
  {
    hide Steers, Impostor, BehindCdn, FlagsOf;
    FlagsMean(r);
  }

  /** A network whose text names a known CDN, in any case, rules out Reality and impersonation on every port. */
  lemma {:induction false} CdnTextClears(r: Reports, org: string, name: string)
    requires org in r.geoOrgs && name in CDN_ASNS && Mentions(org, name)
    ensures !FlagsOf(r).reality && !FlagsOf(r).impersonation
    ensures StackFor(r) != XtlsReality && StackFor(r) != RealityAndAmnezia
  {
    hide Mentions, IsKnownCdnAsn, FlagsOf;
    assert MentionsOne(org, CDN_ASNS);
    KnownCdnMeans(org);
    CdnClears(r, org);
  }

  /** Cloudflare, Inc. is one, capital letter and all. */
  lemma {:induction false} CloudflareClears(r: Reports)
    requires "Cloudflare, Inc." in r.geoOrgs
    ensures !FlagsOf(r).reality && !FlagsOf(r).impersonation
  {
    hide FlagsOf, Mentions, StackFor;
    CloudflareText();
    assert CDN_ASNS[0] == "cloudflare";
    CdnTextClears(r, "Cloudflare, Inc.", "cloudflare");
  }

  lemma {:induction false} CloudflareText()
    ensures Mentions("Cloudflare, Inc.", "cloudflare")
  {
    var s := "Cloudflare, Inc.";
    assert s[0..10] == "Cloudflare";
    SameTextMeans("Cloudflare", "cloudflare");
    assert Letter(2, 'C', 'c');
    assert "Cloudflare"[1..] == "cloudflare"[1..];
    forall i | 0 <= i < 10 ensures SameLetter("Cloudflare"[i], "cloudflare"[i]) {
      if i > 0 { assert "Cloudflare"[1..][i - 1] == "cloudflare"[1..][i - 1]; }
    }
    assert StandsAt(s, 0, "cloudflare");
  }
}
