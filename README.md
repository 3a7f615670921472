# IP lookup resolver, modelled in Dafny

This project models the address and metadata resolver of the `ip-api`
Cloudflare Worker (`src/index.js`). For each request the Worker works out
the caller's IPv4 and IPv6 addresses and a location/ISP description, then
shows them as four rows, one per source. It draws on three kinds of input:

- six proxy headers (`cf-connecting-ip`, `cf-connecting-ipv6`,
  `cf-pseudo-ipv4`, `true-client-ip`, `x-real-ip`, `x-forwarded-for`);
- the platform geo fields of `request.cf`;
- the decoded JSON answers of two lookup services (ip-api.com and ipinfo.io).

All of these are inputs to the model, each field an `Option<string>`. The
JavaScript `||` counts both a missing value and `""` as absent; the model
writes this as `Truthy` (present and non-empty).

Modules, one per part of the resolver:

- `Wrappers`: the `Option` type.
- `Text`: the JavaScript built-ins the resolver calls: `split` on a
  one-character separator, and `trim` with the exact ECMAScript
  whitespace and line-terminator set.
- `Shapes`: `isIPv4` (the regular expression `^(\d{1,3}\.){3}\d{1,3}$`,
  run as an automaton) and `isIPv6` (contains `:`). The automaton is proved
  equal to a reference definition: four dot-separated groups of one to
  three digits.
- `Signals`: the input records, truthiness, and the header object in
  declaration order.
- `Selection`: the IPv4 priority chain, the IPv6 priority header, and the
  shared header scan. The scan is written twice: as a recursive function,
  and as a method with a `for` loop and `break` like the source. The
  method is proved to compute the function.
- `Geo`: the `||` fallback chains for country, region, city, ASN and AS
  organization, and the removal of a leading `AS`.
- `Report`: the four-row `ipInfo` breakdown and the whole resolution.

For an ip-api `as` value of `"AS13335 Example Org"` and no platform ASN,
the ASN is `"13335 Example Org"`: only the leading `AS` is removed
(`src/index.js:89`). The AS organization does not come from the rest of
`as`; it is the platform's, else ip-api's `isp`, else ipinfo's `org`
(`src/index.js:90`).

Every function here is deterministic. So resolving the same inputs twice
gives the same addresses and rows, and the model needs no lemma for it.

## Model

| member | source | states |
|---|---|---|
| `Text.TrimStart` | src/index.js:50 | the result is a suffix of the input, everything cut off is whitespace, and it does not start with whitespace |
| `Text.TrimEnd` | src/index.js:50 | the result is a prefix of the input, everything cut off is whitespace, and it does not end with whitespace |
| `Text.TrimIsInfix` | src/index.js:50 | `trim` returns a contiguous part of the input that neither starts nor ends with whitespace |
| `Text.TrimKeepsChars` | src/index.js:50 | every character of a trimmed string occurs in the original |
| `Text.TrimUnpadded` | src/index.js:50 | a string without surrounding whitespace is its own `trim` |
| `Text.TrimIdempotent` | src/index.js:50 | trimming twice is trimming once |
| `Text.Split` | src/index.js:50 | `split` gives at least one piece, and no piece contains the separator |
| `Text.JoinSplit` | src/index.js:50 | joining the pieces with the separator gives back the original string |
| `Text.SplitKeepsChars` | src/index.js:50 | every character of a piece occurs in the split string |
| `Text.SplitWithoutSep` | src/index.js:50 | a string without the separator splits into itself alone |
| `Text.SplitAtFirstSep` | src/index.js:50 | the first piece is everything before the first separator; the rest is the split of what follows |
| `Shapes.IsIPv4` | src/index.js:29 | `isIPv4`: the string is non-empty and accepted by the automaton for `^(\d{1,3}\.){3}\d{1,3}$`, so it holds only digits and dots |
| `Shapes.IsIPv6` | src/index.js:30 | `isIPv6`: the string contains `:`, so it is non-empty and never IPv4-shaped |
| `Signals.HeaderValues` | src/index.js:10-17 | the six header values, one per key of the `headers` object in its declaration order (cf-connecting-ip, cf-connecting-ipv6, cf-pseudo-ipv4, true-client-ip, x-real-ip, x-forwarded-for), as `Object.values` lists them |
| `Shapes.MatchQuadSplit` | src/index.js:29 | from any state, the regular-expression automaton accepts exactly when the current group continues with the first dot-separated piece and every later piece is a 1–3 digit group, with the right number of pieces left |
| `Shapes.IsIPv4Groups` | src/index.js:29 | `isIPv4(s)` holds if and only if `s` splits on `.` into exactly four groups of one to three ASCII digits |
| `Shapes.QuadHasOnlyDigitsAndDots` | src/index.js:29 | a string the pattern accepts contains only digits and dots |
| `Shapes.IPv4IsNotIPv6` | src/index.js:29-30 | an IPv4-shaped string has no colon and no comma, so it is never IPv6-shaped |
| `Shapes.NoOctetRangeCheck` | src/index.js:29 | there is no range check: `999.999.999.999` is IPv4-shaped |
| `Shapes.PrivateQuadShape` | src/index.js:29 | `10.0.0.1` is IPv4-shaped |
| `Shapes.TestNet3QuadShape` | src/index.js:29 | `203.0.113.5` is IPv4-shaped |
| `Shapes.PatternIsAnchored` | src/index.js:29 | too few groups, too many groups, a four-digit group and leading whitespace are all rejected |
| `Shapes.NotAnIpHasNoShape` | src/index.js:29-30 | `not-an-ip` is neither IPv4- nor IPv6-shaped |
| `Selection.FindFirst` | src/index.js:51 | `find` returns nothing exactly when no element has the shape, and otherwise the first element that has it |
| `Selection.FindFirstIsFirstMatch` | src/index.js:51 | if `ps[k]` is the first shaped element, `find` returns exactly `ps[k]` |
| `Selection.PickFromHeader` | src/index.js:44-56 | one header yields something exactly when its value is truthy and either has the shape as a whole, or contains a comma and has a trimmed comma-separated piece with the shape; a value shaped as a whole is returned as it is; what is yielded is shaped and is the whole value or one of its trimmed pieces |
| `Selection.PickFirstShapedPiece` | src/index.js:49-55 | a value that is not shaped as a whole but contains a comma yields its first shaped trimmed piece |
| `Selection.ScanHeaders` | src/index.js:43-57 | the scan finds nothing exactly when no header yields anything; what it finds is shaped and comes from some header's value or a trimmed piece of one |
| `Selection.ScanStopsAtFirstHit` | src/index.js:43-57 | the scan returns exactly what the first header that yields an address yields |
| `Selection.ScanHeaderValues` | src/index.js:43-57 | the `for…of` loop with `break` computes the scan function, for both shapes |
| `Selection.PiecesOfTwo` | src/index.js:50 | two comma-free parts joined by a comma split and trim into their two trimmed parts |
| `Selection.CommaIsNotIPv4` | src/index.js:29 | a value containing a comma is never IPv4-shaped as a whole |
| `Selection.NoColonInPieces` | src/index.js:73-75 | a value without a colon has no trimmed piece with a colon |
| `Selection.PickIPv6IsWhole` | src/index.js:67-81 | in the IPv6 loop a header yields its whole value when it is truthy and has a colon, and nothing otherwise: the comma branch never decides |
| `Selection.IPv6ScanTakesWholeValue` | src/index.js:67-81 | an IPv6 address found by the scan is always an entire header value |
| `Selection.SelectIPv4` | src/index.js:33-58 | a detected IPv4 is IPv4-shaped and is the `cf-pseudo-ipv4` header, ip-api `query`, ipinfo `ip`, a header value or a trimmed piece of one |
| `Selection.SelectIPv6` | src/index.js:61-82 | a detected IPv6 contains a colon and is one of the six header values, whole |
| `Selection.IPv4Priority` | src/index.js:35-41 | a shaped `cf-pseudo-ipv4` beats every other source; otherwise a shaped `query` beats ipinfo and the headers; otherwise a shaped ipinfo `ip` beats the headers, whatever the lower sources hold |
| `Selection.IPv4FromHeaderScan` | src/index.js:10-57 | when no priority source qualifies, the IPv4 is what the first header (in the order cf-connecting-ip, cf-connecting-ipv6, cf-pseudo-ipv4, true-client-ip, x-real-ip, x-forwarded-for) that yields one yields |
| `Selection.PseudoIPv4Example` | src/index.js:35-36 | `cf-pseudo-ipv4: 203.0.113.5` gives that IPv4 whatever the other sources hold |
| `Selection.ConnectingIPv6Wins` | src/index.js:63-64 | a `cf-connecting-ipv6` value with a colon is the IPv6 whatever the other headers hold |
| `Selection.NothingDetected` | src/index.js:33-82 | when no header yields an address and neither lookup reports a shaped IP, both results are null |
| `Selection.NotAnIpNeverSelected` | src/index.js:29-82 | `not-an-ip` is never selected as either address |
| `Selection.OnlyForwardedFor` | src/index.js:43-57 | with `x-forwarded-for` the only signal, the IPv4 is what that header alone yields |
| `Selection.ScanOfLastOnly` | src/index.js:43-57 | when every header value but the last is missing, the scan yields exactly what the last one yields |
| `Selection.ForwardedForExample` | src/index.js:43-57 | `x-forwarded-for: 10.0.0.1, 203.0.113.9` alone gives `10.0.0.1` |
| `Selection.ResolveAddresses` | src/index.js:33-82 | the imperative code with its two `let` variables computes the IPv4 and IPv6 selection functions |
| `Geo.FirstTruthy` | src/index.js:86-90 | `a \|\| b \|\| … \|\| '-'` is never empty; it is the first truthy candidate, or `-` exactly when there is none |
| `Geo.FirstTruthyOfThree` | src/index.js:86-90 | over three candidates the chain gives the first, else the second, else the third truthy value, else `-` |
| `Geo.StripLeadingAS` | src/index.js:89 | `replace(/^AS/, '')` removes exactly one leading `AS` and keeps the rest, and leaves other strings unchanged |
| `Geo.ResolveGeo` | src/index.js:86-90 | none of country, region, city, ASN and AS organization is ever empty |
| `Geo.GeoFallbackOrder` | src/index.js:86-90 | each field is the platform value, else the ip-api value, else the ipinfo value, else `-`, with the AS-stripped ip-api `as` for the ASN |
| `Geo.AsnFromIpApiAs` | src/index.js:89 | with no platform ASN, an ip-api `as` of `AS` plus a non-empty rest gives that rest as the ASN |
| `Geo.BareAsFallsThrough` | src/index.js:89 | a bare `AS` strips to `""`, so the ASN falls through to ipinfo `org`, else `-` |
| `Geo.StripRemovesOnePrefix` | src/index.js:89 | only one `AS` is removed, the match is case-sensitive, and a value without the prefix is unchanged |
| `Report.Rows` | src/index.js:93-118 | exactly four rows, in order IP-API, IPInfo, Cloudflare, ASN信息; every row has `ip = ipv4 \|\| '-'` and `ipv6 = ipv6 \|\| '-'`; the ASN row's provider is `"AS" + asn + " " + asOrganization` |
| `Report.RowsShowAddresses` | src/index.js:93-118 | for shaped addresses, each row shows `-` exactly when an address is missing and the address itself otherwise; every provider is non-empty; the ASN row's provider starts with `AS` |
| `Report.Resolve` | src/index.js:33-118 | the resolved addresses have their shapes and there are four rows |
| `Report.ResolvedRowsShowAddresses` | src/index.js:33-118 | every row shows `-` exactly for an undetected address, and otherwise the detected, shaped address |
| `Report.NoSignalShowsDashes` | src/index.js:33-118 | with no address header and no lookup IP, both addresses are undetected and every row shows `-` for them |
| `Report.AsnRowRestoresAs` | src/index.js:89-115 | with no platform ASN, an ip-api `as` starting with `AS` reappears whole in the ASN row, followed by a space and the AS organization |

## Left out

- The HTTP to HTTPS redirect (lines 3-6) is not modelled. It depends on the runtime's `URL` parser and `Response.redirect`.
- The two outbound `fetch` calls, `Promise.all` and `.json()` (lines 20-26) are not modelled. They are network I/O. Their decoded answers are inputs.
- A lookup that fails or returns malformed JSON throws, and the `try`/`catch` answers HTTP 500. That path is not modelled.
- `request.headers.get` and `request.cf` are runtime objects. Their values are inputs. Case-insensitive header lookup belongs to the runtime.
- The HTML/CSS template and the response headers (lines 120-384) are not modelled. They are presentation only.
- JSON fields are modelled as strings or missing. A missing field appears in a location string as `undefined`, as in a template literal. A JSON `null` (shown as `null`) and non-string values are not distinguished.
- `request.cf.asn` is a number on the platform. It is modelled as a string, so the number `0` is not modelled as falsy.
- Strings are sequences of Unicode code points. JavaScript strings are UTF-16 code units. This matters to no operation here.
