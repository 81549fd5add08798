/** brand_cert.cpp and sni_consistency.cpp said of the names, networks and probes themselves. */
module CertMeaning {
  import opened Brand
  import opened Bytes
  import opened Counting
  import opened Sni
  import opened Text

  // ---------------------------------------------------------------- brands

  // The name is something, a dot, and `b` in any case.
  predicate LiesUnder(s: string, b: string) { exists n :: 0 < n < |s| && s[n] == '.' && SameText(s[n + 1..], b) }

  lemma {:induction false} EndsMeans(s: string, b: string)
    ensures EndsWithDot(s, b) <==> LiesUnder(s, b)
  {
    hide SameText;
    if EndsWithDot(s, b) {
      var n := |s| - |b| - 1;
      assert s[n + 1..] == s[|s| - |b|..];
    }
    if n :| 0 < n < |s| && s[n] == '.' && SameText(s[n + 1..], b) {
      SameLength(s[n + 1..], b);
      assert s[n + 1..] == s[|s| - |b|..];
    }
  }

  // Row `i` is the first whose brand the name is, or, if it is none, the first that it lies under.
  ghost predicate Picked(table: seq<BrandMarker>, s: string, i: int) {
    && 0 <= i < |table|
    && if exists j :: 0 <= j < |table| && SameText(s, table[j].brand)
       then SameText(s, table[i].brand) && forall j :: 0 <= j < i ==> !SameText(s, table[j].brand)
       else LiesUnder(s, table[i].brand) && forall j :: 0 <= j < i ==> !LiesUnder(s, table[j].brand)
  }

  /** The brand of a name, with or without a wildcard before it, is that of the row picked for it. */
  lemma {:induction false} BrandPicked(table: seq<BrandMarker>, s: string, i: int)
    requires Picked(table, s, i) && s != "" && !StartsWith(s, "*.")
    ensures IsBrand(table, s) == IsBrand(table, "*." + s) == Some(table[i].brand)
  {
    hide FirstBrand, EndsWithDot, LiesUnder, SameText;
    forall b ensures EndsWithDot(s, b) <==> LiesUnder(s, b) { EndsMeans(s, b); }
    assert ("*." + s)[0..2] == "*." && ("*." + s)[2..] == s;
    assert Stripped(s) == Stripped("*." + s) == s;
    var exact, under := FirstBrand(table, Exactly(s)), FirstBrand(table, Under(s));
    if exact.Some? {
      assert Exactly(s)(table[exact.value].brand);
      assert forall j :: 0 <= j < exact.value ==> !Exactly(s)(table[j].brand);
    } else {
      forall j | 0 <= j < |table| ensures !SameText(s, table[j].brand) { assert !Exactly(s)(table[j].brand); }
      assert Under(s)(table[i].brand);
      assert Under(s)(table[under.value].brand);
      assert forall j :: 0 <= j < under.value ==> !Under(s)(table[j].brand);
    }
  }

  /** Such a name has no brand exactly when no row is picked for it. */
  lemma {:induction false} NoBrandPicked(table: seq<BrandMarker>, s: string)
    requires s != "" && !StartsWith(s, "*.")
    ensures IsBrand(table, s) == None <==> forall i :: !Picked(table, s, i)
  {
    hide FirstBrand, EndsWithDot, LiesUnder, SameText, Stripped;
    assert Stripped(s) == s by { NotStripped(s); }
    forall b ensures EndsWithDot(s, b) <==> LiesUnder(s, b) { EndsMeans(s, b); }
    if i :| Picked(table, s, i) { BrandPicked(table, s, i); }
    var exact, under := FirstBrand(table, Exactly(s)), FirstBrand(table, Under(s));
    if exact.Some? {
      assert forall j :: 0 <= j < exact.value ==> !Exactly(s)(table[j].brand);
      assert Exactly(s)(table[exact.value].brand);
      assert Picked(table, s, exact.value);
    } else if under.Some? {
      forall j | 0 <= j < |table| ensures !SameText(s, table[j].brand) { assert !Exactly(s)(table[j].brand); }
      assert forall j :: 0 <= j < under.value ==> !Under(s)(table[j].brand);
      assert Under(s)(table[under.value].brand);
      assert Picked(table, s, under.value);
    }
  }

  lemma {:induction false} NotStripped(s: string)
    requires !StartsWith(s, "*.")
    ensures Stripped(s) == s
  { }

  // Row `i` is the first with this very brand, and lists the marker.
  predicate Lists(table: seq<BrandMarker>, brand: string, i: int, m: string) {
    && 0 <= i < |table| && table[i].brand == brand && m in table[i].asnMarkers
    && forall j :: 0 <= j < i ==> table[j].brand != brand
  }

  // It lists a marker that the organisation mentions.
  ghost predicate OwnedBy(table: seq<BrandMarker>, brand: string, org: string) {
    exists i, m :: Lists(table, brand, i, m) && m != "" && Mentions(org, m)
  }

  lemma {:induction false} MarkersMean(table: seq<BrandMarker>, brand: string, m: string)
    ensures m in MarkersOf(table, brand) <==> exists i :: Lists(table, brand, i, m)
    decreases |table|
  {
    if table != [] {
      var rest := table[1..];
      MarkersMean(rest, brand, m);
      if table[0].brand == brand {
        assert m in table[0].asnMarkers ==> Lists(table, brand, 0, m);
      } else {
        if i :| Lists(rest, brand, i, m) {
          assert table[i + 1] == rest[i] && forall j :: 1 <= j <= i ==> table[j] == rest[j - 1];
          assert Lists(table, brand, i + 1, m);
        }
        if i :| Lists(table, brand, i, m) {
          assert rest[i - 1] == table[i] && forall j :: 0 <= j < i - 1 ==> rest[j] == table[j + 1];
          assert Lists(rest, brand, i - 1, m);
        }
      }
    }
  }

  /**
    A brand is owned by the networks exactly when one of their texts mentions, in
    any case, a marker of the brand's row. Markers are in lower case already.
  */
  lemma {:induction false} OwnsMeans(table: seq<BrandMarker>, domain: string, orgs: seq<string>)
    requires forall i, m :: 0 <= i < |table| && m in table[i].asnMarkers ==> NoUpper(m)
    ensures AsnOwnsBrand(table, domain, orgs) <==>
      && IsBrand(table, domain).Some?
      && exists org :: org in orgs && OwnedBy(table, IsBrand(table, domain).value, org)
  {
    hide IsBrand, Mentions, NoUpper, Contains, MarkersOf;
    if IsBrand(table, domain).Some? {
      assert domain != "" by { NothingIsNone(table); }
      var brand := IsBrand(table, domain).value;
      forall org ensures Marked(MarkersOf(table, brand), org) <==> OwnedBy(table, brand, org) {
        MarkedMeans(table, brand, org);
      }
    }
  }

  lemma {:induction false} NothingIsNone(table: seq<BrandMarker>)
    ensures IsBrand(table, "") == None
  { }

  lemma {:induction false} MarkedMeans(table: seq<BrandMarker>, brand: string, org: string)
    requires forall i, m :: 0 <= i < |table| && m in table[i].asnMarkers ==> NoUpper(m)
    ensures Marked(MarkersOf(table, brand), org) <==> OwnedBy(table, brand, org)
  {
    hide Mentions, NoUpper, Contains, MarkersOf, Lower, Lists;
    if Marked(MarkersOf(table, brand), org) {
      var m :| m in MarkersOf(table, brand) && m != "" && Contains(Lower(org), m);
      MarkersMean(table, brand, m);
      var i :| Lists(table, brand, i, m);
      ListedRow(table, brand, i, m);
      ContainsMeans(org, m);
    }
    if OwnedBy(table, brand, org) {
      var i, m :| Lists(table, brand, i, m) && m != "" && Mentions(org, m);
      MarkersMean(table, brand, m);
      ListedRow(table, brand, i, m);
      ContainsMeans(org, m);
    }
  }

  lemma {:induction false} ListedRow(table: seq<BrandMarker>, brand: string, i: int, m: string)
    requires Lists(table, brand, i, m)
    ensures 0 <= i < |table| && m in table[i].asnMarkers
  { }

  // The first alternative name with a brand has this one.
  ghost predicate FirstBranded(table: seq<BrandMarker>, san: seq<string>, brand: string) {
    exists i :: 0 <= i < |san| && IsBrand(table, san[i]) == Some(brand)
      && forall j :: 0 <= j < i ==> IsBrand(table, san[j]) == None
  }

  /** A certificate claims the brand of its common name, or else of the first alternative name that has one. */
  lemma {:induction false} ClaimMeans(table: seq<BrandMarker>, cn: string, san: seq<string>, brand: string)
    requires brand != ""
    ensures CertClaimsBrand(table, cn, san) == brand <==>
      IsBrand(table, cn) == Some(brand) || (IsBrand(table, cn) == None && FirstBranded(table, san, brand))
  {
    hide IsBrand;
    FirstClaimMeans(table, san, brand);
  }

  lemma {:induction false} FirstClaimMeans(table: seq<BrandMarker>, san: seq<string>, brand: string)
    requires brand != ""
    ensures FirstClaim(table, san) == brand <==> FirstBranded(table, san, brand)
    decreases |san|
  {
    hide IsBrand;
    if san != [] {
      var rest := san[1..];
      FirstClaimMeans(table, rest, brand);
      if IsBrand(table, san[0]) == None {
        if FirstBranded(table, rest, brand) {
          var i :| 0 <= i < |rest| && IsBrand(table, rest[i]) == Some(brand)
            && forall j :: 0 <= j < i ==> IsBrand(table, rest[j]) == None;
          assert san[i + 1] == rest[i] && forall j :: 1 <= j < i + 1 ==> san[j] == rest[j - 1];
        }
        if FirstBranded(table, san, brand) {
          var i :| 0 <= i < |san| && IsBrand(table, san[i]) == Some(brand)
            && forall j :: 0 <= j < i ==> IsBrand(table, san[j]) == None;
          assert rest[i - 1] == san[i] && forall j :: 0 <= j < i - 1 ==> rest[j] == san[j + 1];
        }
      }
    }
  }

  // ----------------------------------------------------------- certificates

  // Three of the probes under other names were answered.
  ghost predicate ThreeAnswered(alts: seq<TlsProbe>) {
    exists i, j, k :: 0 <= i < j < k < |alts| && alts[i].ok && alts[j].ok && alts[k].ok
  }

  ghost predicate SomeSame(base: TlsProbe, alts: seq<TlsProbe>) {
    exists i :: 0 <= i < |alts| && alts[i].ok && alts[i].sha == base.sha
  }

  ghost predicate SomeOther(base: TlsProbe, alts: seq<TlsProbe>) {
    exists i :: 0 <= i < |alts| && alts[i].ok && alts[i].sha != base.sha
  }

  // A certificate that was seen.
  ghost predicate Seen(base: TlsProbe, alts: seq<TlsProbe>, sha: string) {
    sha != "" && (sha == base.sha || exists i :: 0 <= i < |alts| && alts[i].ok && alts[i].sha == sha)
  }

  ghost predicate ThreeSeen(base: TlsProbe, alts: seq<TlsProbe>) {
    exists a, b, c :: Seen(base, alts, a) && Seen(base, alts, b) && Seen(base, alts, c) && a != b && a != c && b != c
  }

  // Always the base certificate; and now this one, now another, or never it but many.
  ghost predicate AlwaysSame(base: TlsProbe, alts: seq<TlsProbe>) { ThreeAnswered(alts) && !SomeOther(base, alts) }

  ghost predicate Varies(base: TlsProbe, alts: seq<TlsProbe>) {
    ThreeAnswered(alts) && SomeOther(base, alts) && (SomeSame(base, alts) || ThreeSeen(base, alts))
  }

  lemma {:induction false} ShasAre(base: TlsProbe, alts: seq<TlsProbe>, sha: string)
    ensures sha in Shas(base, alts) <==> Seen(base, alts, sha)
    decreases |alts|
  {
    if alts != [] {
      var n := |alts| - 1;
      ShasAre(base, alts[..n], sha);
      assert alts == alts[..n] + [alts[n]];
    }
  }

  lemma {:induction false} ThreeIn<T>(s: set<T>)
    ensures |s| >= 3 <==> exists a, b, c :: a in s && b in s && c in s && a != b && a != c && b != c
  {
    if |s| >= 3 {
      var a :| a in s;
      assert |s - {a}| == |s| - 1;
      var b :| b in s - {a};
      assert |s - {a} - {b}| == |s| - 2;
      var c :| c in s - {a} - {b};
    }
    if a, b, c :| a in s && b in s && c in s && a != b && a != c && b != c { AtLeastThree(s, a, b, c); }
  }

  lemma {:induction false} AtLeastThree<T>(s: set<T>, a: T, b: T, c: T)
    requires a in s && b in s && c in s && a != b && a != c && b != c
    ensures |s| >= 3
  {
    assert s == {a, b, c} + (s - {a, b, c});
    assert |{a, b, c}| == 3;
  }

  lemma {:induction false} ManySeen(base: TlsProbe, alts: seq<TlsProbe>)
    ensures |Shas(base, alts)| >= 3 <==> ThreeSeen(base, alts)
  {
    hide Shas, Seen;
    ThreeIn(Shas(base, alts));
    forall sha ensures sha in Shas(base, alts) <==> Seen(base, alts, sha) { ShasAre(base, alts, sha); }
  }

  lemma {:induction false} SameCounts(base: TlsProbe, alts: seq<TlsProbe>)
    ensures Count(alts, Ok) >= 3 <==> ThreeAnswered(alts)
    ensures Count(alts, SameCert(base.sha)) > 0 <==> SomeSame(base, alts)
    ensures Count(alts, SameCert(base.sha)) < Count(alts, Ok) <==> SomeOther(base, alts)
  {
    hide Count;
    CountThree(alts, Ok);
    CountOne(alts, SameCert(base.sha));
    SameAtMost(base, alts);
    if !SomeOther(base, alts) { CountSame(alts, SameCert(base.sha), Ok); }
  }

  lemma {:induction false} CertsMean(base: TlsProbe, alts: seq<TlsProbe>)
    ensures Steady(base, alts) <==> AlwaysSame(base, alts)
    ensures Mixed(base, alts) <==> Varies(base, alts)
  {
    hide Count, Shas, ThreeAnswered, SomeSame, SomeOther, ThreeSeen;
    SameAtMost(base, alts);
    SameCounts(base, alts);
    ManySeen(base, alts);
  }

  // A name of someone else that the base certificate covers.
  ghost predicate CoversForeign(base: TlsProbe, baseSni: string, names: seq<string>) {
    exists n :: n in names && !SameText(n, baseSni) && CertCoversName(n, base.cn, base.san)
  }

  // The name is the first of them.
  ghost predicate FirstCovered(base: TlsProbe, baseSni: string, names: seq<string>, name: string) {
    exists i :: 0 <= i < |names| && names[i] == name && Foreign(base, baseSni, name)
      && forall j :: 0 <= j < i ==> !Foreign(base, baseSni, names[j])
  }

  lemma {:induction false} FirstForeignIs(base: TlsProbe, baseSni: string, names: seq<string>)
    ensures CoversForeign(base, baseSni, names) ==>
      FirstCovered(base, baseSni, names, FirstForeign(base, baseSni, names))
    decreases |names|
  {
    hide SameText, CertCoversName;
    if names != [] && !Foreign(base, baseSni, names[0]) {
      var rest := names[1..];
      FirstForeignIs(base, baseSni, rest);
      assert names == [names[0]] + rest;
      if CoversForeign(base, baseSni, rest) {
        var f := FirstForeign(base, baseSni, rest);
        var i :| 0 <= i < |rest| && rest[i] == f && Foreign(base, baseSni, f)
          && forall j :: 0 <= j < i ==> !Foreign(base, baseSni, rest[j]);
        assert names[i + 1] == f && forall j :: 1 <= j < i + 1 ==> names[j] == rest[j - 1];
      }
    }
  }

  /** What each finding says of the probes that were answered and the certificates that came. */
  lemma {:induction false} FindingsMean(
      c: SniConsistency, table: seq<BrandMarker>, base: TlsProbe, baseSni: string, names: seq<string>,
      alts: seq<TlsProbe>)
    requires base.ok && Classified(c, table, base, baseSni, names, alts)
    ensures var always, varies := AlwaysSame(base, alts), Varies(base, alts);
      var claims, foreign := c.brandClaimed != "", CoversForeign(base, baseSni, names);
      var covered := CertCoversName(baseSni, base.cn, base.san);
      && (c.sameCertAlways <==> always)
      && (c.passthroughMode <==> varies && claims)
      && (c.certImpersonation <==> (always || varies) && claims)
      && (c.realityLike <==> (always && !covered && (foreign || claims)) || (varies && claims))
      && (c.defaultCertOnly <==> always && (covered || (!foreign && !claims)))
      && (c.realityLike && (varies || !foreign) ==> c.matchedForeignSni == c.brandClaimed)
      && (c.realityLike && always && foreign ==> FirstCovered(base, baseSni, names, c.matchedForeignSni))
  {
    hide Steady, Mixed, AlwaysSame, Varies, CertClaimsBrand, CertCoversName, SameText, FirstForeign, Shas;
    CertsMean(base, alts);
    NotBoth(base, alts);
    ForeignNonempty(base, baseSni, names);
    FirstForeignIs(base, baseSni, names);
  }

  lemma {:induction false} NotBoth(base: TlsProbe, alts: seq<TlsProbe>)
    ensures !(AlwaysSame(base, alts) && Varies(base, alts))
  { }

  /** A name without a wildcard matches exactly itself, in any case. */
  lemma {:induction false} ExactMeans(name: string, pat: string)
    requires !StartsWith(pat, "*.")
    ensures DnsNameMatch(name, pat) <==> name != "" && SameText(name, pat)
  {
    if SameText(name, pat) { SameLength(name, pat); }
  }

  /** A certificate covers a name exactly when its common name or an alternative name matches. */
  lemma {:induction false} CoversMeans(name: string, cn: string, san: seq<string>)
    ensures CertCoversName(name, cn, san) <==> exists pat :: pat in [cn] + san && DnsNameMatch(name, pat)
  {
    hide DnsNameMatch;
    assert cn in [cn] + san;
    assert forall s :: s in [cn] + san <==> s == cn || s in san;
  }
}
