/** The per-source breakdown (src/index.js, lines 93-118) and the whole
    resolution of one request: both addresses, the location fields and the
    four display rows. */
module Report {
  import opened Wrappers
  import opened Shapes
  import opened Signals
  import opened Selection
  import opened Geo

  /** One entry of the `ipInfo` object. */
  datatype Row = Row(source: string, ip: string, ipv6: string, provider: string, location: string)

  /** `x || '-'`. */
  function OrDash(o: Option<string>): string {
    if Truthy(o) then o.value else "-"
  }

  /** How a template literal shows a field of a decoded lookup answer: its
      text, or "undefined" when the field is missing. */
  function Display(o: Option<string>): string {
    match o
    case Some(s) => s
    case None => "undefined"
  }

  /** The label of the synthesized ASN row, "ASN信息" ("ASN information"). */
  const AsnLabel: string := "ASN\U{4FE1}\U{606F}"

  /** The `ipInfo` object literal, in its insertion order. */
  function Rows(ipv4: Option<string>, ipv6: Option<string>, g: Location,
                api: IpApiData, info: IpInfoData): (rows: seq<Row>)
    ensures |rows| == 4
    ensures rows[0].source == "IP-API" && rows[1].source == "IPInfo"
    ensures rows[2].source == "Cloudflare" && rows[3].source == AsnLabel
    ensures forall i :: 0 <= i < 4 ==> rows[i].ip == OrDash(ipv4) && rows[i].ipv6 == OrDash(ipv6)
    ensures rows[3].provider == "AS" + g.asn + " " + g.asOrganization
  {
    var ip, ip6 := OrDash(ipv4), OrDash(ipv6);
    [ Row("IP-API", ip, ip6, OrDash(api.isp),
          Display(api.country) + " " + Display(api.regionName) + " " + Display(api.city)),
      Row("IPInfo", ip, ip6, OrDash(info.org),
          Display(info.country) + " " + Display(info.region) + " " + Display(info.city)),
      Row("Cloudflare", ip, ip6, g.asOrganization,
          g.country + " " + g.region + " " + g.city),
      Row(AsnLabel, ip, ip6, "AS" + g.asn + " " + g.asOrganization,
          g.country + " " + g.city) ]
  }

  /** Everything the handler computes before rendering. */
  datatype Resolution = Resolution(
    ipv4: Option<string>,
    ipv6: Option<string>,
    location: Location,
    rows: seq<Row>)

  /** Lines 33-118 as one function of the request's inputs. */
  function Resolve(h: Headers, cf: CfGeo, api: IpApiData, info: IpInfoData): (res: Resolution)
    ensures res.ipv4.Some? ==> IsIPv4(res.ipv4.value)
    ensures res.ipv6.Some? ==> IsIPv6(res.ipv6.value)
    ensures |res.rows| == 4
  {
    var ipv4 := SelectIPv4(h, api, info);
    var ipv6 := SelectIPv6(h);
    var g := ResolveGeo(cf, api, info);
    Resolution(ipv4, ipv6, g, Rows(ipv4, ipv6, g, api, info))
  }

  /** Every row shows the given addresses: `-` exactly when an address is
      missing, and otherwise the address itself; every provider is
      non-empty and the ASN row's starts with "AS". */
  lemma {:induction false} RowsShowAddresses(ipv4: Option<string>, ipv6: Option<string>, g: Location,
                                             api: IpApiData, info: IpInfoData)
    requires ipv4.Some? ==> IsIPv4(ipv4.value)
    requires ipv6.Some? ==> IsIPv6(ipv6.value)
    requires g.asOrganization != []
    ensures var rows := Rows(ipv4, ipv6, g, api, info);
      forall i :: 0 <= i < 4 ==>
        (rows[i].ip == "-" <==> ipv4.None?) && (ipv4.Some? ==> rows[i].ip == ipv4.value) &&
        (rows[i].ipv6 == "-" <==> ipv6.None?) && (ipv6.Some? ==> rows[i].ipv6 == ipv6.value) &&
        rows[i].provider != []
    ensures Rows(ipv4, ipv6, g, api, info)[3].provider[..2] == "AS"
  {
    assert !IsIPv4("-") && !IsIPv6("-");
    var rows := Rows(ipv4, ipv6, g, api, info);
    assert rows[3].provider[..2] == "AS";
  }

  /** So in a resolution every row shows `-` exactly for an address that
      was not detected, and otherwise the detected address, which has its
      shape. */
  lemma ResolvedRowsShowAddresses(h: Headers, cf: CfGeo, api: IpApiData, info: IpInfoData)
    ensures var res := Resolve(h, cf, api, info);
      forall i :: 0 <= i < 4 ==>
        (res.rows[i].ip == "-" <==> res.ipv4.None?) &&
        (res.ipv4.Some? ==> res.rows[i].ip == res.ipv4.value && IsIPv4(res.rows[i].ip)) &&
        (res.rows[i].ipv6 == "-" <==> res.ipv6.None?) &&
        (res.ipv6.Some? ==> res.rows[i].ipv6 == res.ipv6.value && IsIPv6(res.rows[i].ipv6))
  {
    var res := Resolve(h, cf, api, info);
    RowsShowAddresses(res.ipv4, res.ipv6, res.location, api, info);
  }

  /** With no address-bearing header and neither lookup reporting an
      address, both addresses are "not detected" and every row shows `-`
      for them. */
  lemma NoSignalShowsDashes(h: Headers, cf: CfGeo, api: IpApiData, info: IpInfoData)
    requires h == NoHeaders && !Truthy(api.query) && !Truthy(info.ip)
    ensures var res := Resolve(h, cf, api, info);
      res.ipv4.None? && res.ipv6.None? &&
      forall i :: 0 <= i < |res.rows| ==> res.rows[i].ip == "-" && res.rows[i].ipv6 == "-"
  {
    var vs := HeaderValues(h);
    assert vs == [None, None, None, None, None, None];
    forall i | 0 <= i < 6
      ensures PickFromHeader(V4, vs[i]).None? && PickFromHeader(V6, vs[i]).None?
    {
      assert vs[i] == None;
    }
    NothingDetected(h, api, info);
    var res := Resolve(h, cf, api, info);
    assert res.ipv4 == None && res.ipv6 == None;
    RowsShowAddresses(None, None, res.location, api, info);
  }

  /** Without a platform ASN, an ip-api `as` such as "AS13335 Example Org"
      loses its "AS" in the ASN field and gets it back in the ASN row, whose
      provider is then the `as` text followed by the organization. */
  lemma AsnRowRestoresAs(h: Headers, cf: CfGeo, api: IpApiData, info: IpInfoData)
    requires !Truthy(cf.asn) && Truthy(api.asInfo)
    requires |api.asInfo.value| > 2 && api.asInfo.value[..2] == "AS"
    ensures var res := Resolve(h, cf, api, info);
      res.rows[3].provider == api.asInfo.value + " " + res.location.asOrganization
  {
    var a := api.asInfo.value;
    assert a == "AS" + a[2..];
    AsnFromIpApiAs(cf, api, info, a[2..]);
  }
}
