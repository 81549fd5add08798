/** brand_cert.cpp: which brand a certificate name claims, and whether the network it is served from owns that brand. */
module Brand {
  import opened Bytes
  import opened Text

  // A row of the brand table, its ASN markers split at the commas, trimmed and in lower case.
  datatype BrandMarker = BrandMarker(brand: string, asnMarkers: seq<string>)

  // No brand is empty or a wildcard.
  predicate WellFormed(table: seq<BrandMarker>) {
    forall i :: 0 <= i < |table| ==> table[i].brand != "" && !StartsWith(table[i].brand, "*.")
  }

  predicate EndsWithDot(s: string, suffix: string) {
    |s| > |suffix| + 1 && s[|s| - |suffix| - 1] == '.' && SameText(s[|s| - |suffix|..], suffix)
  }

  function FirstBrand(table: seq<BrandMarker>, p: string -> bool): (r: Option<nat>)
    ensures match r
      case None => forall i :: 0 <= i < |table| ==> !p(table[i].brand)
      case Some(n) => n < |table| && p(table[n].brand) && forall i :: 0 <= i < n ==> !p(table[i].brand)
  {
    if table == [] then None
    else
      var n := |table| - 1;
      match FirstBrand(table[..n], p)
      case Some(i) => Some(i)
      case None => if p(table[n].brand) then Some(n) else None
  }

  function Exactly(name: string): string -> bool { (b: string) => SameText(name, b) }

  function Under(name: string): string -> bool { (b: string) => EndsWithDot(name, b) }

  function Stripped(name: string): string { if StartsWith(name, "*.") then name[2..] else name }

  function IsBrand(table: seq<BrandMarker>, name: string): Option<string> {
    if name == "" then None
    else
      match FirstBrand(table, Exactly(Stripped(name)))
      case Some(i) => Some(table[i].brand)
      case None =>
        match FirstBrand(table, Under(Stripped(name)))
        case Some(i) => Some(table[i].brand)
        case None => None
  }

  lemma {:induction false} SuffixSame(s: string, a: string, b: string)
    requires SameText(a, b)
    ensures EndsWithDot(s, a) <==> EndsWithDot(s, b)
  {
    assert |Lower(a)| == |a| && |Lower(b)| == |b|;
  }

  lemma {:induction false} ExactOfBrand(table: seq<BrandMarker>, n: nat)
    requires n < |table| && forall i :: 0 <= i < n ==> !SameText(table[n].brand, table[i].brand)
    ensures FirstBrand(table, Exactly(table[n].brand)) == Some(n)
  {
    hide FirstBrand;
    assert Exactly(table[n].brand)(table[n].brand);
  }

  /** The brand found for a name is its own brand. */
  lemma {:induction false} BrandIsFixed(table: seq<BrandMarker>, name: string)
    requires WellFormed(table) && IsBrand(table, name).Some?
    ensures IsBrand(table, IsBrand(table, name).value) == IsBrand(table, name)
  {
    hide FirstBrand, EndsWithDot;
    var s := Stripped(name);
    var exact := FirstBrand(table, Exactly(s));
    if exact.Some? {
      assert SameText(s, table[exact.value].brand);
      forall i | 0 <= i < exact.value ensures !SameText(table[exact.value].brand, table[i].brand) {
        assert !Exactly(s)(table[i].brand);
      }
      ExactOfBrand(table, exact.value);
    } else {
      var n := FirstBrand(table, Under(s)).value;
      forall i | 0 <= i < n ensures !SameText(table[n].brand, table[i].brand) {
        assert !Under(s)(table[i].brand) && Under(s)(table[n].brand);
        if SameText(table[n].brand, table[i].brand) { SuffixSame(s, table[n].brand, table[i].brand); }
      }
      ExactOfBrand(table, n);
    }
  }

  /** A name gets a brand exactly when, wildcard stripped, it is one or lies under one, in any case. */
  lemma {:induction false} BrandMeans(table: seq<BrandMarker>, name: string)
    requires name != ""
    ensures IsBrand(table, name).Some? <==>
      exists i :: 0 <= i < |table|
        && (SameText(Stripped(name), table[i].brand) || EndsWithDot(Stripped(name), table[i].brand))
  {
    hide FirstBrand, EndsWithDot, SameText;
    var s := Stripped(name);
    if i :| 0 <= i < |table| && (SameText(s, table[i].brand) || EndsWithDot(s, table[i].brand)) {
      assert Exactly(s)(table[i].brand) || Under(s)(table[i].brand);
    }
  }

  // The names of the certificate that claim a brand; empty: none.
  function CertClaimsBrand(table: seq<BrandMarker>, cn: string, san: seq<string>): string {
    match IsBrand(table, cn)
    case Some(hit) => hit
    case None => FirstClaim(table, san)
  }

  function FirstClaim(table: seq<BrandMarker>, san: seq<string>): string {
    if san == [] then ""
    else
      match IsBrand(table, san[0])
      case Some(hit) => hit
      case None => FirstClaim(table, san[1..])
  }

  /** What a certificate claims is a brand by itself, and is the brand of one of its names. */
  lemma {:induction false} ClaimIsBrand(table: seq<BrandMarker>, cn: string, san: seq<string>)
    requires WellFormed(table)
    ensures var claim := CertClaimsBrand(table, cn, san);
      claim != "" ==>
        && IsBrand(table, claim) == Some(claim)
        && (IsBrand(table, cn) == Some(claim) || exists i :: 0 <= i < |san| && IsBrand(table, san[i]) == Some(claim))
    ensures CertClaimsBrand(table, cn, san) == "" <==>
      IsBrand(table, cn) == None && forall i :: 0 <= i < |san| ==> IsBrand(table, san[i]) == None
  {
    hide IsBrand, WellFormed;
    if IsBrand(table, cn).Some? {
      BrandIsFixed(table, cn);
      BrandNonempty(table, cn);
    } else {
      FirstClaimIsBrand(table, san);
    }
  }

  lemma {:induction false} BrandNonempty(table: seq<BrandMarker>, name: string)
    requires WellFormed(table) && IsBrand(table, name).Some?
    ensures IsBrand(table, name).value != ""
  { }

  lemma {:induction false} FirstClaimIsBrand(table: seq<BrandMarker>, san: seq<string>)
    requires WellFormed(table)
    ensures var claim := FirstClaim(table, san);
      claim != "" ==>
        IsBrand(table, claim) == Some(claim) && exists i :: 0 <= i < |san| && IsBrand(table, san[i]) == Some(claim)
    ensures FirstClaim(table, san) == "" <==> forall i :: 0 <= i < |san| ==> IsBrand(table, san[i]) == None
    decreases |san|
  {
    hide IsBrand, WellFormed;
    if san != [] {
      if IsBrand(table, san[0]).Some? {
        BrandIsFixed(table, san[0]);
        BrandNonempty(table, san[0]);
      } else {
        FirstClaimIsBrand(table, san[1..]);
        assert forall i :: 0 <= i < |san| - 1 ==> san[1..][i] == san[i + 1];
        assert san == [san[0]] + san[1..];
      }
    }
  }

  predicate Marked(markers: seq<string>, org: string) {
    exists m :: m in markers && m != "" && Contains(Lower(org), m)
  }

  // The first row with this very brand.
  function MarkersOf(table: seq<BrandMarker>, brand: string): seq<string> {
    if table == [] then []
    else if table[0].brand == brand then table[0].asnMarkers
    else MarkersOf(table[1..], brand)
  }

  predicate AsnOwnsBrand(table: seq<BrandMarker>, domain: string, orgs: seq<string>) {
    && domain != "" && orgs != []
    && IsBrand(table, domain).Some?
    && exists org :: org in orgs && Marked(MarkersOf(table, IsBrand(table, domain).value), org)
  }

  /** Who owns a domain depends only on its brand, and one more network never takes ownership away. */
  lemma {:induction false} OwnershipOfBrand(
      table: seq<BrandMarker>, domain: string, orgs: seq<string>, more: seq<string>)
    requires WellFormed(table) && IsBrand(table, domain).Some?
    ensures AsnOwnsBrand(table, domain, orgs) <==> AsnOwnsBrand(table, IsBrand(table, domain).value, orgs)
    ensures AsnOwnsBrand(table, domain, orgs) ==> AsnOwnsBrand(table, domain, orgs + more)
  {
    hide Marked, MarkersOf;
    BrandIsFixed(table, domain);
    BrandNonempty(table, domain);
  }
}
