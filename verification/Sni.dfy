/** sni_consistency.cpp: what a server's certificates under other names say about it. */
module Sni {
  import opened Brand
  import opened Counting
  import opened Text

  // The comparison folds each pair of letters as it goes.
  method IequalsAscii(a: string, b: string) returns (same: bool)
    ensures same <==> SameText(a, b)
  {
    if |a| != |b| {
      assert |Lower(a)| != |Lower(b)|;
      return false;
    }
    for i := 0 to |a|
      invariant forall j :: 0 <= j < i ==> LowerChar(a[j]) == LowerChar(b[j])
    {
      if LowerChar(a[i]) != LowerChar(b[i]) {
        assert Lower(a)[i] != Lower(b)[i];
        return false;
      }
    }
    assert Lower(a) == Lower(b);
    return true;
  }

  predicate NoDot(s: string) { forall i :: 0 <= i < |s| ==> s[i] != '.' }

  predicate DnsNameMatch(name: string, pat: string) {
    if name == "" || pat == "" then false
    else if StartsWith(pat, "*.") then
      var suffix := pat[1..];
      if |name| <= |suffix| then false
      else
        var off := |name| - |suffix|;
        SameText(name[off..], suffix) && name[off] == '.' && NoDot(name[..off])
    else SameText(name, pat)
  }

  // The name is one nonempty label without dots, a dot, and `rest` in any case.
  ghost predicate OneLabelUnder(name: string, rest: string) {
    exists n :: 0 < n < |name| && name[n] == '.' && NoDot(name[..n]) && SameText(name[n + 1..], rest)
  }

  lemma {:induction false} LowerTail(s: string, t: string)
    requires s != "" && t != "" && s[0] == t[0]
    ensures SameText(s, t) <==> SameText(s[1..], t[1..])
  {
    if Lower(s) == Lower(t) {
      forall i | 0 <= i < |s| - 1 ensures Lower(s[1..])[i] == Lower(t[1..])[i] {
        assert Lower(s)[i + 1] == Lower(t)[i + 1];
      }
      assert Lower(s[1..]) == Lower(t[1..]);
    }
    if Lower(s[1..]) == Lower(t[1..]) {
      forall i | 0 <= i < |s| ensures Lower(s)[i] == Lower(t)[i] {
        if i > 0 { assert Lower(s[1..])[i - 1] == Lower(t[1..])[i - 1]; }
      }
      assert Lower(s) == Lower(t);
    }
  }

  /** RFC 6125, section 6.4.3: a wildcard stands for exactly one label. */
  lemma {:induction false} WildcardMeans(name: string, rest: string)
    ensures DnsNameMatch(name, "*." + rest) <==> OneLabelUnder(name, rest)
  {
    hide Lower, SameText;
    var pat := "*." + rest;
    assert pat[..2] == "*." && pat[1..] == "." + rest && ("." + rest)[1..] == rest;
    if DnsNameMatch(name, pat) {
      var off := |name| - |pat[1..]|;
      LowerTail(name[off..], "." + rest);
      assert name[off..][1..] == name[off + 1..];
    }
    if OneLabelUnder(name, rest) {
      var n :| 0 < n < |name| && name[n] == '.' && NoDot(name[..n]) && SameText(name[n + 1..], rest);
      SameLength(name[n + 1..], rest);
      LowerTail(name[n..], "." + rest);
      assert name[n..][1..] == name[n + 1..];
    }
  }

  lemma {:induction false} SameLength(a: string, b: string)
    requires SameText(a, b)
    ensures |a| == |b|
  {
    assert |Lower(a)| == |a| && |Lower(b)| == |b|;
  }

  predicate CertCoversName(sni: string, cn: string, san: seq<string>) {
    DnsNameMatch(sni, cn) || exists s :: s in san && DnsNameMatch(sni, s)
  }

  datatype TlsProbe = TlsProbe(ok: bool, sha: string, cn: string, san: seq<string>)

  datatype SniConsistency = SniConsistency(
    sameCertAlways: bool, realityLike: bool, defaultCertOnly: bool,
    matchedForeignSni: string, brandClaimed: string,
    certImpersonation: bool, passthroughMode: bool, distinctCerts: nat)

  const NO_FINDING := SniConsistency(false, false, false, "", "", false, false, 0)

  predicate Ok(p: TlsProbe) { p.ok }

  function SameCert(sha: string): TlsProbe -> bool { (p: TlsProbe) => p.ok && p.sha == sha }

  // The certificates seen.
  function Shas(base: TlsProbe, alts: seq<TlsProbe>): set<string> {
    if alts == [] then if base.sha == "" then {} else {base.sha}
    else
      var n := |alts| - 1;
      Shas(base, alts[..n]) + if alts[n].ok && alts[n].sha != "" then {alts[n].sha} else {}
  }

  // The other name `s` is covered by the base certificate.
  predicate Foreign(base: TlsProbe, baseSni: string, s: string) {
    !SameText(s, baseSni) && CertCoversName(s, base.cn, base.san)
  }

  function FirstForeign(base: TlsProbe, baseSni: string, names: seq<string>): string {
    if names == [] then ""
    else if Foreign(base, baseSni, names[0]) then names[0]
    else FirstForeign(base, baseSni, names[1..])
  }

  // Enough answers, all with the base certificate; or with it only sometimes, or never but with many.
  predicate Steady(base: TlsProbe, alts: seq<TlsProbe>) {
    Count(alts, Ok) >= 3 && Count(alts, SameCert(base.sha)) == Count(alts, Ok)
  }

  predicate Mixed(base: TlsProbe, alts: seq<TlsProbe>) {
    var total, same := Count(alts, Ok), Count(alts, SameCert(base.sha));
    total >= 3 && ((same == 0 && |Shas(base, alts)| >= 3) || 0 < same < total)
  }

  // The findings, as conditions on the probes.
  ghost predicate Classified(
    c: SniConsistency, table: seq<BrandMarker>, base: TlsProbe, baseSni: string, names: seq<string>,
    alts: seq<TlsProbe>)
  {
    if !base.ok then c == NO_FINDING
    else
      var steady, mixed := Steady(base, alts), Mixed(base, alts);
      var claim := CertClaimsBrand(table, base.cn, base.san);
      var covers, foreign := CertCoversName(baseSni, base.cn, base.san), FirstForeign(base, baseSni, names);
      && c.distinctCerts == |Shas(base, alts)| && c.brandClaimed == claim
      && c.sameCertAlways == steady
      && c.passthroughMode == (mixed && claim != "")
      && c.certImpersonation == ((steady || mixed) && claim != "")
      && c.realityLike == ((steady && !covers && (foreign != "" || claim != "")) || (mixed && claim != ""))
      && c.defaultCertOnly == (steady && !c.realityLike)
      && c.matchedForeignSni == (if !c.realityLike then "" else if steady && foreign != "" then foreign else claim)
  }

  // The classification of sni_consistency, given the probe under the base name
  // and those under the alternative names.
  method Classify(table: seq<BrandMarker>, base: TlsProbe, baseSni: string, names: seq<string>, alts: seq<TlsProbe>)
    returns (c: SniConsistency)
    ensures Classified(c, table, base, baseSni, names, alts)
  {
    hide CertClaimsBrand, CertCoversName, Shas, Count;
    c := NO_FINDING;
    if !base.ok { return; }
    var same, total, distinct := Statistics(base, alts);
    c := c.(distinctCerts := |distinct|, brandClaimed := CertClaimsBrand(table, base.cn, base.san));
    SameAtMost(base, alts);
    if total >= 3 && same == total {
      c := c.(sameCertAlways := true);
      var covers := CertCoversName(baseSni, base.cn, base.san);
      if !covers {
        var matched := FindForeign(base, baseSni, names);
        if matched != "" {
          c := c.(realityLike := true, matchedForeignSni := matched);
        }
      }
      if c.brandClaimed != "" {
        c := c.(certImpersonation := true);
        if !c.realityLike && !covers {
          c := c.(realityLike := true, matchedForeignSni := c.brandClaimed);
        }
      }
      if !c.realityLike {
        c := c.(defaultCertOnly := true);
      }
    } else if total >= 3 && ((same == 0 && c.distinctCerts >= 3) || (same > 0 && same < total)) {
      if c.brandClaimed != "" {
        c := c.(certImpersonation := true, realityLike := true, matchedForeignSni := c.brandClaimed,
          passthroughMode := true);
      }
    }
  }

  // The loop over the alternative names' probes.
  method Statistics(base: TlsProbe, alts: seq<TlsProbe>) returns (same: nat, total: nat, distinct: set<string>)
    ensures same == Count(alts, SameCert(base.sha)) && total == Count(alts, Ok) && distinct == Shas(base, alts)
  {
    same, total := 0, 0;
    distinct := if base.sha != "" then {base.sha} else {};
    for i := 0 to |alts|
      invariant same == Count(alts[..i], SameCert(base.sha)) && total == Count(alts[..i], Ok)
        && distinct == Shas(base, alts[..i])
    {
      CountNext(alts, i, SameCert(base.sha));
      CountNext(alts, i, Ok);
      assert alts[..i + 1][..i] == alts[..i];
      var p := alts[i];
      if p.ok {
        total := total + 1;
        if p.sha == base.sha { same := same + 1; }
        if p.sha != "" { distinct := distinct + {p.sha}; }
      }
    }
    assert alts[..|alts|] == alts;
  }

  // The loop for a name of someone else that the base certificate covers; empty: none.
  method FindForeign(base: TlsProbe, baseSni: string, names: seq<string>) returns (matched: string)
    ensures matched == FirstForeign(base, baseSni, names)
  {
    hide SameText, CertCoversName;
    assert names[0..] == names;
    for i := 0 to |names|
      invariant FirstForeign(base, baseSni, names[i..]) == FirstForeign(base, baseSni, names)
    {
      assert names[i..][1..] == names[i + 1..];
      var itself := IequalsAscii(names[i], baseSni);
      if itself { continue; }
      if CertCoversName(names[i], base.cn, base.san) { return names[i]; }
    }
    matched := "";
  }

  lemma {:induction false} SameAtMost(base: TlsProbe, alts: seq<TlsProbe>)
    ensures Count(alts, SameCert(base.sha)) <= Count(alts, Ok)
    ensures Count(alts, SameCert(base.sha)) == Count(alts, Ok) ==>
      forall i :: 0 <= i < |alts| && alts[i].ok ==> alts[i].sha == base.sha
    decreases |alts|
  {
    if alts != [] { SameAtMost(base, alts[..|alts| - 1]); }
  }

  lemma {:induction false} OneSha(base: TlsProbe, alts: seq<TlsProbe>)
    requires forall i :: 0 <= i < |alts| && alts[i].ok ==> alts[i].sha == base.sha
    ensures Shas(base, alts) <= {base.sha}
    decreases |alts|
  {
    if alts != [] { OneSha(base, alts[..|alts| - 1]); }
  }

  lemma {:induction false} AtMostOne<T>(s: set<T>, x: T)
    requires s <= {x}
    ensures |s| <= 1
  {
    assert {x} == s + ({x} - s);
  }

  lemma {:induction false} ForeignNonempty(base: TlsProbe, baseSni: string, names: seq<string>)
    ensures var f := FirstForeign(base, baseSni, names);
      f != "" ==> f in names && Foreign(base, baseSni, f)
    ensures FirstForeign(base, baseSni, names) == "" <==> forall s :: s in names ==> !Foreign(base, baseSni, s)
    decreases |names|
  {
    hide SameText, DnsNameMatch;
    if names != [] {
      assert names == [names[0]] + names[1..];
      NoEmptyMatch(base, baseSni);
      ForeignNonempty(base, baseSni, names[1..]);
    }
  }

  lemma {:induction false} NoEmptyMatch(base: TlsProbe, baseSni: string)
    ensures !Foreign(base, baseSni, "")
  { }

  // What any list of probes can lead to.
  ghost predicate Consistent(c: SniConsistency, table: seq<BrandMarker>) {
    && (c.sameCertAlways ==> c.distinctCerts <= 1 && c.realityLike != c.defaultCertOnly)
    && (c.passthroughMode ==> !c.sameCertAlways && c.realityLike && c.certImpersonation)
    && (c.realityLike ==> c.matchedForeignSni != "")
    && (c.defaultCertOnly ==> c.sameCertAlways)
    && (c.certImpersonation ==> c.brandClaimed != "" && IsBrand(table, c.brandClaimed) == Bytes.Some(c.brandClaimed))
  }

  /** Whatever the probes answered, the findings fit together. */
  lemma {:induction false} FindingsFit(
      c: SniConsistency, table: seq<BrandMarker>, base: TlsProbe, baseSni: string, names: seq<string>,
      alts: seq<TlsProbe>)
    requires WellFormed(table) && Classified(c, table, base, baseSni, names, alts)
    ensures Consistent(c, table)
    ensures c.sameCertAlways ==> forall i :: 0 <= i < |alts| && alts[i].ok ==> alts[i].sha == base.sha
    ensures c.realityLike && !c.certImpersonation ==>
      c.matchedForeignSni in names && Foreign(base, baseSni, c.matchedForeignSni)
    ensures c.realityLike && c.sameCertAlways ==> !CertCoversName(baseSni, base.cn, base.san)
  {
    hide WellFormed, IsBrand, CertClaimsBrand, CertCoversName, Shas, Count, FirstForeign, Foreign;
    ClaimIsBrand(table, base.cn, base.san);
    ForeignNonempty(base, baseSni, names);
    SameAtMost(base, alts);
    if base.ok && c.sameCertAlways {
      OneSha(base, alts);
      AtMostOne(Shas(base, alts), base.sha);
    }
  }
}
