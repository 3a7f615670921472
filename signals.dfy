/** The inputs of the resolver, each taken as a plain value: the six
    address-bearing request headers, the geo fields the edge platform
    attaches to the request (`request.cf`), and the two decoded JSON answers
    of the ip-api.com and ipinfo.io lookups (src/index.js, lines 10-26, 85).
    A field that is missing is `None`. */
module Signals {
  import opened Wrappers

  /** JavaScript truthiness of a string-or-missing value: `null`,
      `undefined` and `""` are all falsy. */
  predicate Truthy(o: Option<string>) {
    o.Some? && o.value != []
  }

  /** The header object built at lines 10-17, one field per header name, in
      the order the object literal declares them. */
  datatype Headers = Headers(
    connectingIp: Option<string>,    // cf-connecting-ip
    connectingIpv6: Option<string>,  // cf-connecting-ipv6
    pseudoIpv4: Option<string>,      // cf-pseudo-ipv4
    trueClientIp: Option<string>,    // true-client-ip
    realIp: Option<string>,          // x-real-ip
    forwardedFor: Option<string>)    // x-forwarded-for

  /** The six header names, as the object literal declares them. */
  datatype HeaderName =
    | CfConnectingIp | CfConnectingIpv6 | CfPseudoIpv4
    | TrueClientIp | XRealIp | XForwardedFor

  /** The declaration order of the header object's keys. */
  const HeaderOrder: seq<HeaderName> :=
    [CfConnectingIp, CfConnectingIpv6, CfPseudoIpv4, TrueClientIp, XRealIp, XForwardedFor]

  /** `headers[name]`: the value `request.headers.get(name)` gave. */
  function Lookup(h: Headers, n: HeaderName): Option<string> {
    match n
    case CfConnectingIp => h.connectingIp
    case CfConnectingIpv6 => h.connectingIpv6
    case CfPseudoIpv4 => h.pseudoIpv4
    case TrueClientIp => h.trueClientIp
    case XRealIp => h.realIp
    case XForwardedFor => h.forwardedFor
  }

  /** `Object.values(headers)`: one value per key, in declaration order. */
  function HeaderValues(h: Headers): (vs: seq<Option<string>>)
    ensures |vs| == |HeaderOrder| == 6
    ensures forall i :: 0 <= i < |vs| ==> vs[i] == Lookup(h, HeaderOrder[i])
  {
    [h.connectingIp, h.connectingIpv6, h.pseudoIpv4, h.trueClientIp, h.realIp, h.forwardedFor]
  }

  /** The fields of the ip-api.com answer that the handler reads. */
  datatype IpApiData = IpApiData(
    query: Option<string>,
    country: Option<string>,
    regionName: Option<string>,
    city: Option<string>,
    isp: Option<string>,
    asInfo: Option<string>)          // the `as` field, e.g. "AS13335 Example Org"

  /** The fields of the ipinfo.io answer that the handler reads. */
  datatype IpInfoData = IpInfoData(
    ip: Option<string>,
    country: Option<string>,
    region: Option<string>,
    city: Option<string>,
    org: Option<string>)

  /** The platform geo fields of `request.cf`; a request without `cf` is the
      value with every field `None` (the `request.cf || {}` fallback). */
  datatype CfGeo = CfGeo(
    country: Option<string>,
    region: Option<string>,
    city: Option<string>,
    asn: Option<string>,
    asOrganization: Option<string>)

  const NoHeaders := Headers(None, None, None, None, None, None)
  const NoIpApi := IpApiData(None, None, None, None, None, None)
  const NoIpInfo := IpInfoData(None, None, None, None, None)
  const NoCf := CfGeo(None, None, None, None, None)
}
