/** Address selection (src/index.js, lines 33-82): the IPv4 priority chain
    with its header scan, and the IPv6 priority header with the same scan. */
module Selection {
  import opened Wrappers
  import opened Text
  import opened Shapes
  import opened Signals

  /** Which shape test a scan applies. */
  datatype Shape = V4 | V6

  predicate Matches(shape: Shape, s: string) {
    match shape
    case V4 => IsIPv4(s)
    case V6 => IsIPv6(s)
  }

  /** `headerValue.split(',').map(ip => ip.trim())`. */
  function Pieces(v: string): seq<string> {
    TrimAll(Split(v, ','))
  }

  /** `ps[k]` is the first element of `ps` of the given shape. */
  predicate FirstMatchAt(shape: Shape, ps: seq<string>, k: int) {
    0 <= k < |ps| && Matches(shape, ps[k]) &&
    forall j :: 0 <= j < k ==> !Matches(shape, ps[j])
  }

  /** `ps.find(ip => isIPv4(ip))` (or `isIPv6`): the first element of the
      shape, or nothing when there is none. */
  function FindFirst(shape: Shape, ps: seq<string>): (r: Option<string>)
    ensures r.None? <==> forall i :: 0 <= i < |ps| ==> !Matches(shape, ps[i])
    ensures r.Some? ==> exists k :: FirstMatchAt(shape, ps, k) && ps[k] == r.value
  {
    if ps == [] then None
    else if Matches(shape, ps[0]) then
      assert FirstMatchAt(shape, ps, 0);
      Some(ps[0])
    else
      var r := FindFirst(shape, ps[1..]);
      assert r.Some? ==> exists k :: FirstMatchAt(shape, ps, k) && ps[k] == r.value by {
        if r.Some? {
          var k :| FirstMatchAt(shape, ps[1..], k) && ps[1..][k] == r.value;
          assert FirstMatchAt(shape, ps, k + 1);
        }
      }
      r
  }

  /** Some trimmed comma-separated piece of `v` has the shape. */
  predicate HasShapedPiece(shape: Shape, v: string) {
    exists i :: 0 <= i < |Pieces(v)| && Matches(shape, Pieces(v)[i])
  }

  /** What one iteration of the header loop takes from one header value:
      the whole value when it has the shape, otherwise, when it contains a
      comma, the first trimmed comma-separated piece that has it. */
  function PickFromHeader(shape: Shape, v: Option<string>): (r: Option<string>)
    ensures r.Some? ==> Matches(shape, r.value) && Truthy(v) &&
                        (r.value == v.value || r.value in Pieces(v.value))
    ensures Truthy(v) && Matches(shape, v.value) ==> r == v
    ensures r.Some? <==>
      (Truthy(v) && (Matches(shape, v.value) || (',' in v.value && HasShapedPiece(shape, v.value))))
  {
    if Truthy(v) && Matches(shape, v.value) then v
    else if Truthy(v) && ',' in v.value then
      var first := FindFirst(shape, Pieces(v.value));
      assert first.Some? ==> first.value in Pieces(v.value);
      first
    else None
  }

  /** `x` is one of the header values, or a trimmed comma-separated piece
      of one. */
  ghost predicate FromHeaders(x: string, vs: seq<Option<string>>) {
    exists i :: 0 <= i < |vs| && vs[i].Some? && (x == vs[i].value || x in Pieces(vs[i].value))
  }

  /** The `for (const headerValue of Object.values(headers))` loop with its
      `break`s, as a function over the sequence of header values: the pick
      of the first header that yields one. */
  function ScanHeaders(shape: Shape, vs: seq<Option<string>>): (r: Option<string>)
    ensures r.None? <==> forall i :: 0 <= i < |vs| ==> PickFromHeader(shape, vs[i]).None?
    ensures r.Some? ==> Matches(shape, r.value) && FromHeaders(r.value, vs)
  {
    if vs == [] then None
    else
      var here := PickFromHeader(shape, vs[0]);
      if here.Some? then here
      else
        var r := ScanHeaders(shape, vs[1..]);
        assert r.Some? ==> FromHeaders(r.value, vs) by {
          if r.Some? {
            var i :| 0 <= i < |vs[1..]| && vs[1..][i].Some? &&
                     (r.value == vs[1..][i].value || r.value in Pieces(vs[1..][i].value));
            assert vs[i + 1] == vs[1..][i];
          }
        }
        assert forall i :: 1 <= i < |vs| ==> vs[i] == vs[1..][i - 1];
        r
  }

  /** The scan stops at the first header that yields an address and
      returns exactly what that header yields. */
  lemma {:induction false} ScanStopsAtFirstHit(shape: Shape, vs: seq<Option<string>>, k: nat)
    requires k < |vs| && PickFromHeader(shape, vs[k]).Some?
    requires forall j :: 0 <= j < k ==> PickFromHeader(shape, vs[j]).None?
    ensures ScanHeaders(shape, vs) == PickFromHeader(shape, vs[k])
  {
    if k > 0 {
      assert ScanHeaders(shape, vs) == ScanHeaders(shape, vs[1..]) by {
        assert PickFromHeader(shape, vs[0]).None?;
      }
      forall j | 0 <= j < k - 1
        ensures PickFromHeader(shape, vs[1..][j]).None?
      {
        assert vs[1..][j] == vs[j + 1];
      }
      ScanStopsAtFirstHit(shape, vs[1..], k - 1);
    }
  }

  /** A value without a colon has no trimmed piece with a colon. */
  lemma NoColonInPieces(v: string, i: nat)
    requires ':' !in v && i < |Pieces(v)|
    ensures ':' !in Pieces(v)[i]
  {
    var parts := Split(v, ',');
    if ':' in Pieces(v)[i] {
      TrimKeepsChars(parts[i], ':');
      SplitKeepsChars(v, ',', i, ':');
    }
  }

  /** For IPv6 the comma branch never decides: a value with a colon is
      taken whole first, and a value without one has no piece with one. */
  lemma PickIPv6IsWhole(v: Option<string>)
    ensures PickFromHeader(V6, v) == if Truthy(v) && ':' in v.value then v else None
  {
    if Truthy(v) && ':' !in v.value && ',' in v.value {
      forall i | 0 <= i < |Pieces(v.value)|
        ensures !Matches(V6, Pieces(v.value)[i])
      {
        NoColonInPieces(v.value, i);
      }
    }
  }

  /** So an IPv6 address found by the scan is always an entire header
      value. */
  lemma {:induction false} IPv6ScanTakesWholeValue(vs: seq<Option<string>>)
    ensures ScanHeaders(V6, vs).Some? ==>
      exists i :: 0 <= i < |vs| && vs[i] == ScanHeaders(V6, vs)
  {
    if vs != [] {
      PickIPv6IsWhole(vs[0]);
      if PickFromHeader(V6, vs[0]).None? {
        IPv6ScanTakesWholeValue(vs[1..]);
        if ScanHeaders(V6, vs[1..]).Some? {
          var i :| 0 <= i < |vs[1..]| && vs[1..][i] == ScanHeaders(V6, vs[1..]);
          assert vs[i + 1] == ScanHeaders(V6, vs);
        }
      } else {
        assert vs[0] == ScanHeaders(V6, vs);
      }
    }
  }

  /** The IPv4 address of lines 33-58: an IPv4-shaped cf-pseudo-ipv4
      header, else an IPv4-shaped ip-api `query`, else an IPv4-shaped ipinfo
      `ip`, else the header scan. Whatever it returns is IPv4-shaped and
      comes from one of those sources. */
  function SelectIPv4(h: Headers, api: IpApiData, info: IpInfoData): (r: Option<string>)
    ensures r.Some? ==> IsIPv4(r.value)
    ensures r.Some? ==> r == h.pseudoIpv4 || r == api.query || r == info.ip ||
                        FromHeaders(r.value, HeaderValues(h))
  {
    if Truthy(h.pseudoIpv4) && IsIPv4(h.pseudoIpv4.value) then h.pseudoIpv4
    else if Truthy(api.query) && IsIPv4(api.query.value) then api.query
    else if Truthy(info.ip) && IsIPv4(info.ip.value) then info.ip
    else ScanHeaders(V4, HeaderValues(h))
  }

  /** The IPv6 address of lines 61-82: a cf-connecting-ipv6 header with a
      colon, else the header scan. Whatever it returns contains a colon and
      is an entire header value. */
  function SelectIPv6(h: Headers): (r: Option<string>)
    ensures r.Some? ==> IsIPv6(r.value)
    ensures r.Some? ==> exists i :: 0 <= i < 6 && HeaderValues(h)[i] == r
  {
    IPv6ScanTakesWholeValue(HeaderValues(h));
    if Truthy(h.connectingIpv6) && IsIPv6(h.connectingIpv6.value) then
      assert HeaderValues(h)[1] == h.connectingIpv6;
      h.connectingIpv6
    else ScanHeaders(V6, HeaderValues(h))
  }

  /** The IPv4 priority chain: a shaped cf-pseudo-ipv4 beats everything, a
      shaped `query` beats ipinfo and every header, and a shaped ipinfo `ip`
      beats every header; the lower sources do not matter then. */
  lemma IPv4Priority(h: Headers, h': Headers, api: IpApiData, api': IpApiData,
                     info: IpInfoData, info': IpInfoData)
    requires h'.pseudoIpv4 == h.pseudoIpv4
    ensures Truthy(h.pseudoIpv4) && IsIPv4(h.pseudoIpv4.value) ==>
      SelectIPv4(h, api, info) == SelectIPv4(h', api', info') == h.pseudoIpv4
    ensures !IsIPv4(h.pseudoIpv4.GetOr("")) && Truthy(api.query) && IsIPv4(api.query.value) ==>
      SelectIPv4(h, api, info) == SelectIPv4(h', api, info') == api.query
    ensures !IsIPv4(h.pseudoIpv4.GetOr("")) && !IsIPv4(api.query.GetOr("")) &&
            Truthy(info.ip) && IsIPv4(info.ip.value) ==>
      SelectIPv4(h, api, info) == SelectIPv4(h', api, info) == info.ip
  {
  }

  /** When no earlier source qualifies, the IPv4 address is what the header
      scan picks: the pick of the first header, in the order
      cf-connecting-ip, cf-connecting-ipv6, cf-pseudo-ipv4, true-client-ip,
      x-real-ip, x-forwarded-for, that yields one. */
  lemma IPv4FromHeaderScan(h: Headers, api: IpApiData, info: IpInfoData, k: nat)
    requires !IsIPv4(h.pseudoIpv4.GetOr("")) && !IsIPv4(api.query.GetOr("")) && !IsIPv4(info.ip.GetOr(""))
    requires k < 6 && PickFromHeader(V4, HeaderValues(h)[k]).Some?
    requires forall j :: 0 <= j < k ==> PickFromHeader(V4, HeaderValues(h)[j]).None?
    ensures SelectIPv4(h, api, info) == PickFromHeader(V4, HeaderValues(h)[k])
  {
    ScanStopsAtFirstHit(V4, HeaderValues(h), k);
  }

  /** `cf-pseudo-ipv4: 203.0.113.5` is the IPv4 address whatever the other
      sources hold. */
  lemma PseudoIPv4Example(h: Headers, api: IpApiData, info: IpInfoData)
    requires h.pseudoIpv4 == Some("203.0.113.5")
    ensures SelectIPv4(h, api, info) == Some("203.0.113.5")
  {
    TestNet3QuadShape();
  }

  /** A cf-connecting-ipv6 value with a colon is the IPv6 address whatever
      the other headers hold. */
  lemma ConnectingIPv6Wins(h: Headers, h': Headers)
    requires h'.connectingIpv6 == h.connectingIpv6 && Truthy(h.connectingIpv6) && ':' in h.connectingIpv6.value
    ensures SelectIPv6(h) == SelectIPv6(h') == h.connectingIpv6
  {
  }

  /** With no qualifying source at all, neither address is detected. */
  lemma NothingDetected(h: Headers, api: IpApiData, info: IpInfoData)
    requires forall i :: 0 <= i < 6 ==> PickFromHeader(V4, HeaderValues(h)[i]).None?
    requires forall i :: 0 <= i < 6 ==> PickFromHeader(V6, HeaderValues(h)[i]).None?
    requires !IsIPv4(api.query.GetOr("")) && !IsIPv4(info.ip.GetOr(""))
    ensures SelectIPv4(h, api, info).None? && SelectIPv6(h).None?
  {
    assert PickFromHeader(V4, HeaderValues(h)[2]).None?;
    assert PickFromHeader(V6, HeaderValues(h)[1]).None?;
  }

  /** A value such as "not-an-ip" is never selected as either address. */
  lemma NotAnIpNeverSelected(h: Headers, api: IpApiData, info: IpInfoData)
    ensures SelectIPv4(h, api, info) != Some("not-an-ip")
    ensures SelectIPv6(h) != Some("not-an-ip")
  {
    NotAnIpHasNoShape();
  }

  /** `x-forwarded-for: 10.0.0.1, 203.0.113.9` with no other signal gives
      the first IPv4-shaped piece. */
  lemma ForwardedForExample(v: string)
    requires v == "10.0.0.1, 203.0.113.9"
    ensures SelectIPv4(NoHeaders.(forwardedFor := Some(v)), NoIpApi, NoIpInfo) == Some("10.0.0.1")
  {
    var a, b := "10.0.0.1", " 203.0.113.9";
    assert v == a + [','] + b && v[|a|] == ',';
    PiecesOfTwo(a, b);
    TrimUnpadded(a);
    CommaIsNotIPv4(v);
    PrivateQuadShape();
    PickFirstShapedPiece(V4, v, 0);
    OnlyForwardedFor(v);
  }

  /** Two comma-free parts joined by a comma give their two trimmed
      pieces. */
  lemma PiecesOfTwo(a: string, b: string)
    requires ',' !in a && ',' !in b
    ensures Pieces(a + [','] + b) == [Trim(a), Trim(b)]
  {
    assert Split(a + [','] + b, ',') == [a, b] by {
      SplitAtFirstSep(a, b, ',');
      SplitWithoutSep(b, ',');
    }
    var ps := TrimAll([a, b]);
    assert |ps| == 2 && ps[0] == Trim(a) && ps[1] == Trim(b);
  }

  /** A value with a comma is never IPv4-shaped as a whole. */
  lemma CommaIsNotIPv4(v: string)
    requires ',' in v
    ensures !IsIPv4(v)
  {
    IPv4IsNotIPv6(v);
  }

  /** A value that does not have the shape as a whole but contains a comma
      yields its first trimmed piece that has it. */
  lemma PickFirstShapedPiece(shape: Shape, v: string, k: nat)
    requires !Matches(shape, v) && ',' in v
    requires FirstMatchAt(shape, Pieces(v), k)
    ensures PickFromHeader(shape, Some(v)) == Some(Pieces(v)[k])
  {
    FindFirstIsFirstMatch(shape, Pieces(v), k);
  }

  /** `find` returns the first element that has the shape. */
  lemma {:induction false} FindFirstIsFirstMatch(shape: Shape, ps: seq<string>, k: nat)
    requires FirstMatchAt(shape, ps, k)
    ensures FindFirst(shape, ps) == Some(ps[k])
  {
    if k > 0 {
      assert FirstMatchAt(shape, ps[1..], k - 1);
      FindFirstIsFirstMatch(shape, ps[1..], k - 1);
    }
  }

  /** With x-forwarded-for the only signal, the IPv4 address is what that
      header alone yields. */
  lemma OnlyForwardedFor(v: string)
    ensures SelectIPv4(NoHeaders.(forwardedFor := Some(v)), NoIpApi, NoIpInfo) == PickFromHeader(V4, Some(v))
  {
    var h := NoHeaders.(forwardedFor := Some(v));
    var vs := HeaderValues(h);
    assert SelectIPv4(h, NoIpApi, NoIpInfo) == ScanHeaders(V4, vs) by {
      assert !Truthy(h.pseudoIpv4) && !Truthy(NoIpApi.query) && !Truthy(NoIpInfo.ip);
    }
    assert forall j :: 0 <= j < 5 ==> vs[j] == None by {
      assert vs == [None, None, None, None, None, Some(v)];
    }
    ScanOfLastOnly(V4, vs);
  }

  /** When every value but the last is missing, the scan yields what the
      last one yields. */
  lemma {:induction false} ScanOfLastOnly(shape: Shape, vs: seq<Option<string>>)
    requires vs != [] && forall j :: 0 <= j < |vs| - 1 ==> vs[j] == None
    ensures ScanHeaders(shape, vs) == PickFromHeader(shape, vs[|vs| - 1])
  {
    if |vs| > 1 {
      assert ScanHeaders(shape, vs) == ScanHeaders(shape, vs[1..]) by {
        assert PickFromHeader(shape, vs[0]).None?;
      }
      forall j | 0 <= j < |vs[1..]| - 1
        ensures vs[1..][j] == None
      {
        assert vs[1..][j] == vs[j + 1];
      }
      ScanOfLastOnly(shape, vs[1..]);
    } else {
      assert ScanHeaders(shape, vs[1..]) == None;
    }
  }

  /** The header loop of lines 43-57 and 67-81, with `let`, `for…of` and
      `break`, computes the scan function. */
  method ScanHeaderValues(shape: Shape, values: seq<Option<string>>) returns (picked: Option<string>)
    ensures picked == ScanHeaders(shape, values)
  {
    picked := None;
    for k := 0 to |values|
      invariant picked.None?
      invariant ScanHeaders(shape, values) == ScanHeaders(shape, values[k..])
    {
      assert values[k..][1..] == values[k + 1..];
      var headerValue := values[k];
      if Truthy(headerValue) && Matches(shape, headerValue.value) {
        picked := headerValue;
        break;
      }
      if Truthy(headerValue) && ',' in headerValue.value {
        var ips := Pieces(headerValue.value);
        var first := FindFirst(shape, ips);
        if first.Some? {
          picked := first;
          break;
        }
      }
    }
  }

  /** Lines 33-82 as written: two `let` variables assigned by the priority
      checks or by the header loop. */
  method ResolveAddresses(h: Headers, api: IpApiData, info: IpInfoData)
    returns (ipv4: Option<string>, ipv6: Option<string>)
    ensures ipv4 == SelectIPv4(h, api, info)
    ensures ipv6 == SelectIPv6(h)
  {
    ipv4 := None;
    if Truthy(h.pseudoIpv4) && IsIPv4(h.pseudoIpv4.value) {
      ipv4 := h.pseudoIpv4;
    } else if Truthy(api.query) && IsIPv4(api.query.value) {
      ipv4 := api.query;
    } else if Truthy(info.ip) && IsIPv4(info.ip.value) {
      ipv4 := info.ip;
    } else {
      ipv4 := ScanHeaderValues(V4, HeaderValues(h));
    }

    ipv6 := None;
    if Truthy(h.connectingIpv6) && IsIPv6(h.connectingIpv6.value) {
      ipv6 := h.connectingIpv6;
    } else {
      ipv6 := ScanHeaderValues(V6, HeaderValues(h));
    }
  }
}
