/** Location and network fields (src/index.js, lines 85-90): each is the
    first truthy value among the platform's `request.cf` field, the ip-api
    field and the ipinfo field, else the placeholder `-`. */
module Geo {
  import opened Wrappers
  import opened Signals

  /** `cands[k]` is the first truthy candidate. */
  predicate FirstTruthyAt(cands: seq<Option<string>>, k: int) {
    0 <= k < |cands| && Truthy(cands[k]) &&
    forall j :: 0 <= j < k ==> !Truthy(cands[j])
  }

  /** `c0 || c1 || … || '-'`: the first truthy candidate, or `-` when every
      candidate is missing or empty. Never empty. */
  function FirstTruthy(cands: seq<Option<string>>): (r: string)
    ensures r != []
    ensures (exists k :: FirstTruthyAt(cands, k) && r == cands[k].value) ||
            ((forall i :: 0 <= i < |cands| ==> !Truthy(cands[i])) && r == "-")
  {
    if cands == [] then "-"
    else if Truthy(cands[0]) then
      assert FirstTruthyAt(cands, 0);
      cands[0].value
    else
      var r := FirstTruthy(cands[1..]);
      assert (exists k :: FirstTruthyAt(cands, k) && r == cands[k].value) ||
             ((forall i :: 0 <= i < |cands| ==> !Truthy(cands[i])) && r == "-") by {
        if exists k :: FirstTruthyAt(cands[1..], k) && r == cands[1..][k].value {
          var k :| FirstTruthyAt(cands[1..], k) && r == cands[1..][k].value;
          assert FirstTruthyAt(cands, k + 1);
        } else {
          assert forall i :: 1 <= i < |cands| ==> cands[i] == cands[1..][i - 1];
        }
      }
      r
  }

  /** `s.replace(/^AS/, '')`: one leading "AS" removed, the rest kept. */
  function StripLeadingAS(s: string): (r: string)
    ensures |s| >= 2 && s[..2] == "AS" ==> s == "AS" + r
    ensures !(|s| >= 2 && s[..2] == "AS") ==> r == s
  {
    if |s| >= 2 && s[..2] == "AS" then s[2..] else s
  }

  /** The ip-api candidate for the ASN:
      `ipApiData.as ? ipApiData.as.replace(/^AS/, '') : ''`. */
  function IpApiAsn(api: IpApiData): Option<string> {
    if Truthy(api.asInfo) then Some(StripLeadingAS(api.asInfo.value)) else Some("")
  }

  /** The five resolved fields shown on the page. */
  datatype Location = Location(
    country: string,
    region: string,
    city: string,
    asn: string,
    asOrganization: string)

  /** Lines 86-90. */
  function ResolveGeo(cf: CfGeo, api: IpApiData, info: IpInfoData): (g: Location)
    ensures g.country != [] && g.region != [] && g.city != []
    ensures g.asn != [] && g.asOrganization != []
  {
    Location(
      FirstTruthy([cf.country, api.country, info.country]),
      FirstTruthy([cf.region, api.regionName, info.region]),
      FirstTruthy([cf.city, api.city, info.city]),
      FirstTruthy([cf.asn, IpApiAsn(api), info.org]),
      FirstTruthy([cf.asOrganization, api.isp, info.org]))
  }

  /** The value `a || b || c || '-'` takes. */
  function Fallback3(a: Option<string>, b: Option<string>, c: Option<string>): string {
    if Truthy(a) then a.value else if Truthy(b) then b.value else if Truthy(c) then c.value else "-"
  }

  /** Over three candidates the fallback is the platform value, else the
      ip-api value, else the ipinfo value, else `-`. */
  lemma {:induction false} FirstTruthyOfThree(a: Option<string>, b: Option<string>, c: Option<string>)
    ensures FirstTruthy([a, b, c]) == Fallback3(a, b, c)
  {
    if !Truthy(a) {
      assert [a, b, c][1..] == [b, c];
      assert FirstTruthy([a, b, c]) == FirstTruthy([b, c]);
      if !Truthy(b) {
        assert [b, c][1..] == [c];
        assert FirstTruthy([b, c]) == FirstTruthy([c]);
        if !Truthy(c) {
          assert [c][1..] == [];
          assert FirstTruthy([c]) == FirstTruthy([]);
        }
      }
    }
  }

  /** Every field follows the platform, ip-api, ipinfo order. */
  lemma GeoFallbackOrder(cf: CfGeo, api: IpApiData, info: IpInfoData)
    ensures ResolveGeo(cf, api, info).country == Fallback3(cf.country, api.country, info.country)
    ensures ResolveGeo(cf, api, info).region == Fallback3(cf.region, api.regionName, info.region)
    ensures ResolveGeo(cf, api, info).city == Fallback3(cf.city, api.city, info.city)
    ensures ResolveGeo(cf, api, info).asn == Fallback3(cf.asn, IpApiAsn(api), info.org)
    ensures ResolveGeo(cf, api, info).asOrganization == Fallback3(cf.asOrganization, api.isp, info.org)
  {
    FirstTruthyOfThree(cf.country, api.country, info.country);
    FirstTruthyOfThree(cf.region, api.regionName, info.region);
    FirstTruthyOfThree(cf.city, api.city, info.city);
    FirstTruthyOfThree(cf.asn, IpApiAsn(api), info.org);
    FirstTruthyOfThree(cf.asOrganization, api.isp, info.org);
  }

  /** Without a platform ASN, an ip-api `as` of the form "AS" followed by a
      non-empty rest gives that rest as the ASN, e.g. "AS13335 Example Org"
      gives "13335 Example Org". */
  lemma AsnFromIpApiAs(cf: CfGeo, api: IpApiData, info: IpInfoData, rest: string)
    requires !Truthy(cf.asn) && api.asInfo == Some("AS" + rest) && rest != []
    ensures ResolveGeo(cf, api, info).asn == rest
  {
    GeoFallbackOrder(cf, api, info);
    assert ("AS" + rest)[..2] == "AS";
  }

  /** A bare "AS" strips to the empty string, which is falsy, so the ASN
      falls through to ipinfo's `org`. */
  lemma BareAsFallsThrough(cf: CfGeo, api: IpApiData, info: IpInfoData)
    requires !Truthy(cf.asn) && api.asInfo == Some("AS")
    ensures ResolveGeo(cf, api, info).asn == (if Truthy(info.org) then info.org.value else "-")
  {
    GeoFallbackOrder(cf, api, info);
    assert StripLeadingAS("AS") == [];
  }

  /** Only one leading "AS" is removed. */
  lemma StripRemovesOnePrefix()
    ensures StripLeadingAS("ASAS64496") == "AS64496"
    ensures StripLeadingAS("13335") == "13335"
    ensures StripLeadingAS("as13335") == "as13335"
  {
    assert "13335"[..2] != "AS" by { assert "13335"[0] == '1'; }
  }
}
