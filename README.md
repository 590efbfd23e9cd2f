# Postmaster forwarding proxy and request client: a Dafny model

Postmaster lets a client describe an HTTP request (method, URL, query parameters,
headers, body) and have a backend proxy execute it. Because the proxy runs requests chosen
by an untrusted caller, its core is an SSRF (server-side request forgery) egress filter.
This project models:

- the **egress filter** `isAllowedUrl` (module `Egress`). It is a pure predicate over the
  parsed protocol and hostname. Every regular expression is written out as a
  character-level predicate. The filter is proved equal to an independent set-style
  description of the denied hostnames (`DeniedHostname`);
- **`forwardRequest`** (module `Proxy`): filter first, then one outbound axios request
  with fixed limits, then a case split over how that request ended;
- the client's **`requestReducer`** state machine (module `RequestContext`);
- **`KeyValueEditor`** row editing: update one row, auto-append a blank row, remove a row;
- **`UrlBar.handleSend`**: active query params, the header map, the body choice, the
  final dispatches and the history call (module `UrlBar`);
- **`useHistory`**: a capped, most-recent-first list kept in browser storage (module
  `History`, a class whose fields are the storage entry and the hook's React state).

`UrlBar.tsx` and `KeyValueEditor.tsx` import the request store from
`src/contexts/RequestContext`. That file is not part of this model. Both are modelled
against the reducer of `apps/web/src/contexts/RequestContext.tsx`, on the assumption that
the two are the same.

Foreign algorithms become parameters: the WHATWG URL parser, `URLSearchParams`
serialisation, `JSON.parse`, the network (axios, `ApiService.sendRequest`),
`crypto.randomUUID` and `Date.now`.

Behaviour kept as the code has it:

- The WHATWG parser serialises IPv6 hosts with brackets. So the bare `"::1"` entry and the
  `startsWith("::ffff:")` branch only fire on unbracketed text. `"[::1]"` matches nothing
  and is allowed (`Egress.BracketedLoopbackAllowed`).
- The IPv4 ranges are matched as text, not as numbers (`Egress.TextualRangeDenied`).
- The `::ffff:` unwrap branch never changes the verdict, because the later pattern
  `^\[?::ffff:` denies every such host (`Egress.HostnameAllowedByLists`).
- The IPv6 patterns are text prefixes, not address ranges. `"[fd12::1]"`, `"[fc01::1]"`
  and `"[fe90::1]"` lie in fc00::/7 and fe80::/10, but none begins with the text
  `fe80:`, `fc00:` or `fd00:`, so they are allowed (`Egress.UniqueLocalExampleAllowed`).
- `forwardRequest` returns response headers unfiltered, including hop-by-hop ones such
  as `transfer-encoding` (RFC 9110, section 7.6.1) (`Proxy.HopByHopHeaderKept`). The
  controller then sends the client only `result.data`
  (`apps/api/src/controllers/proxy.controller.ts:22`), so no upstream header reaches the
  client.
- `handleSend` builds its headers on an object literal. An enabled row named
  `__proto__` therefore hits the inherited `__proto__` setter, which ignores a string,
  and no such header is sent (`UrlBar.ProtoRowSendsNothing`).
- A blocked URL is reported as a thrown `Error`. The Express error handler turns that
  into status 500 (`apps/api/src/middlewares/error.middleware.ts:13`), not a 4xx.

## Model

| member | source | states |
|---|---|---|
| `Strings.ToLower` | apps/api/src/services/proxy.service.ts:53 | ASCII `toLowerCase` keeps the length; `ToLowerIsLowerCase`, `ToLowerOfLowerCase` and `ToLowerOfToUpper` state that it yields lower-case text, fixes lower-case text and ignores prior upper-casing |
| `Egress.IsAllowedUrl` | apps/api/src/services/proxy.service.ts:45-85 | a URL is allowed only if it parsed and its protocol is exactly "http:" or "https:"; a parse failure or any other protocol is denied |
| `Egress.IsAllowedUrlMeaning` | apps/api/src/services/proxy.service.ts:45-85 | allowed exactly when the URL parsed, the protocol is "http:" or "https:", and the lower-cased hostname is not a `DeniedHostname`; both directions |
| `Egress.HostnameAllowed` | apps/api/src/services/proxy.service.ts:53-81 | the chain of early returns on the lower-cased hostname: the exact lists deny, and an allowed hostname matches no pattern; `HostnameAllowedMeaning` and `HostnameAllowedByLists` characterise it fully |
| `Egress.HostnameAllowedMeaning` | apps/api/src/services/proxy.service.ts:53-81 | on a lower-case hostname, the chain of early returns denies exactly the hostnames of the independent description |
| `Egress.HostnameAllowedByLists` | apps/api/src/services/proxy.service.ts:55-79 | the verdict equals "in no exact list and matching no pattern": the `::ffff:` unwrap branch decides nothing extra |
| `Egress.MappedPrefixMatchesPattern` | apps/api/src/services/proxy.service.ts:32 | every hostname starting with "::ffff:" matches the pattern `^\[?::ffff:` whatever follows |
| `Egress.Test` | apps/api/src/services/proxy.service.ts:23-33 | `pattern.test(h)` for each regex shape, with no contract of its own; `AnyBlockedIpPattern`, `Ipv4PatternsMeaning`, `Ipv6PatternsMeaning` and `ExactNamesMeaning` give its meaning |
| `Egress.MappedIpv4Blocked` | apps/api/src/services/proxy.service.ts:62-68 | the test on the text after "::ffff:", with no contract of its own; `HostnameAllowedByLists` shows it never decides the verdict |
| `Egress.AnyBlockedIpPattern` | apps/api/src/services/proxy.service.ts:23-33 | `BLOCKED_IP_PATTERNS.some(...)` holds exactly when one of its nine tests holds |
| `Egress.DigitRunsSound` | apps/api/src/services/proxy.service.ts:24-27 | a text accepted by the `\d{1,3}(\.\d{1,3})*` scan splits into that many dot-joined runs of one to three digits |
| `Egress.DigitRunsComplete` | apps/api/src/services/proxy.service.ts:24-27 | every dot-join of runs of one to three digits is accepted by the scan |
| `Egress.DigitRunsMeaning` | apps/api/src/services/proxy.service.ts:24-27 | the scan accepts exactly the texts of n dot-joined digit runs |
| `Egress.SecondOctet172Meaning` | apps/api/src/services/proxy.service.ts:25 | `(1[6-9]\|2\d\|3[0-1])` matches exactly the two-digit texts whose value is 16 to 31 |
| `Egress.Ipv4PatternsMeaning` | apps/api/src/services/proxy.service.ts:24-27 | the four IPv4 patterns match exactly 10.d.d.d, 172.(16-31).d.d, 192.168.d.d and 169.254.d.d, d being one to three digits |
| `Egress.V6PrefixMeaning` | apps/api/src/services/proxy.service.ts:29-32 | on a lower-case hostname, `^\[?p` with the `i` flag is "p, or [ followed by p, begins the hostname" |
| `Egress.Ipv6PatternsMeaning` | apps/api/src/services/proxy.service.ts:29-32 | the four IPv6 patterns match exactly the hostnames starting, after an optional "[", with fe80:, fc00:, fd00: or ::ffff: |
| `Egress.ExactNamesMeaning` | apps/api/src/services/proxy.service.ts:21-39 | the loopback list, `^0\.0\.0\.0$` and the metadata list together are seven exact names |
| `Egress.HostnameCaseInsensitive` | apps/api/src/services/proxy.service.ts:53 | upper-casing the hostname never changes the verdict |
| `Egress.MappedHostsDenied` | apps/api/src/services/proxy.service.ts:60-75 | every hostname starting with "::ffff:", with or without "[", in any case, is denied |
| `Egress.OnlyHttpSchemes` | apps/api/src/services/proxy.service.ts:46-51 | a URL that does not parse, or whose protocol is neither "http:" nor "https:", is denied |
| `Egress.ExactNamesDenied` | apps/api/src/services/proxy.service.ts:53-79 | localhost, 127.0.0.1, ::1, 0.0.0.0, metadata.google.internal, metadata.goog and 169.254.169.254 are denied with any protocol |
| `Egress.TenRangeDenied` | apps/api/src/services/proxy.service.ts:24 | every hostname "10.a.b.c" with one to three digits in a, b and c is denied |
| `Egress.OneSevenTwoRangeDenied` | apps/api/src/services/proxy.service.ts:25 | every hostname "172.xy.a.b" with xy between 16 and 31 is denied |
| `Egress.SixteenBitRangesDenied` | apps/api/src/services/proxy.service.ts:26-27 | every hostname "192.168.a.b" and every hostname "169.254.a.b" is denied |
| `Egress.TextualRangeDenied` | apps/api/src/services/proxy.service.ts:24 | "10.999.0.1", not an IPv4 address, is denied: the match is textual |
| `Egress.MappedLoopbackDenied` | apps/api/src/services/proxy.service.ts:60-71 | "::ffff:127.0.0.1" is denied |
| `Egress.ExampleComNotDenied` | apps/api/src/services/proxy.service.ts:21-39 | "example.com" is in no list and matches no range or prefix |
| `Egress.PublicHostAllowed` | apps/api/src/services/proxy.service.ts:81 | "https://example.com/..." is allowed |
| `Egress.BracketedLoopbackNotDenied` | apps/api/src/services/proxy.service.ts:21 | "[::1]" is in no list and matches no range or prefix |
| `Egress.BracketedLoopbackAllowed` | apps/api/src/services/proxy.service.ts:21-33 | "[::1]", the parser's form of the IPv6 loopback, is allowed |
| `Egress.UniqueLocalExampleNotDenied` | apps/api/src/services/proxy.service.ts:29-31 | "[fd12::1]" begins with none of the four IPv6 prefixes and is in no list |
| `Egress.UniqueLocalExampleAllowed` | apps/api/src/services/proxy.service.ts:29-32 | "[fd12::1]", a unique-local IPv6 address, is allowed: the patterns are text prefixes, not address ranges |
| `Json.Truthy` | apps/api/src/services/proxy.service.ts:110 | JavaScript truthiness, which decides whether `data` falls back to `undefined`, with no contract of its own; `OutboundConfig` states that data is sent exactly when it is truthy |
| `Proxy.OutboundConfig` | apps/api/src/services/proxy.service.ts:4-6 | the outbound request keeps url and method; headers default to {}; falsy data is dropped; every status is accepted; timeout 30000 ms, both size caps 10485760, 0 redirects |
| `Proxy.Classify` | apps/api/src/services/proxy.service.ts:118-135 | a completed call returns status, body and headers unchanged; an axios error with a response returns its status and body, no headers; one without a response throws its message, or "Network Error"; any other error is rethrown |
| `Proxy.ForwardRequest` | apps/api/src/services/proxy.service.ts:90-136 | an outbound request is issued exactly when the URL is allowed; otherwise the call throws the blocked message; when issued, the outcome is the classification of the upstream result |
| `Proxy.ReturnedOnlyWhenAllowed` | apps/api/src/services/proxy.service.ts:96-101 | a returned response implies the URL was allowed and exactly the built request was issued |
| `Proxy.BlockedIgnoresUpstream` | apps/api/src/services/proxy.service.ts:96-101 | for a blocked URL the result is the same whatever the network would do |
| `Proxy.StatusPassedThrough` | apps/api/src/services/proxy.service.ts:111-122 | every upstream status, redirects included, comes back as a response with status, body and headers unchanged |
| `Proxy.ThrownMessageNonEmpty` | apps/api/src/services/proxy.service.ts:96-134 | a thrown error has a non-empty message: always for a blocked URL, whatever the network would do, and for an allowed URL unless a foreign, non-axios error is rethrown |
| `Proxy.HopByHopHeaderKept` | apps/api/src/services/proxy.service.ts:121 | a "transfer-encoding" response header is passed back unchanged |
| `RequestContext.With` | apps/web/src/contexts/RequestContext.tsx:65 | `{ ...state, [field]: value }` gives the named field the new value and keeps every other field |
| `RequestContext.Reduce` | apps/web/src/contexts/RequestContext.tsx:62-86 | SET_FIELD changes the named field only; START_REQUEST sets loading and clears response and status, nothing else; SET_RESPONSE ends loading and stores response, status, time and size, request untouched; the other actions change nothing |
| `RequestContext.InitialState` | apps/web/src/contexts/RequestContext.tsx:29-43 | a constant with no contract of its own; `InitialStateShape` states its shape |
| `RequestContext.InitialStateShape` | apps/web/src/contexts/RequestContext.tsx:29-43 | the initial state is GET, not loading, with no response and one blank enabled query row |
| `RequestContext.RequestCycle` | apps/web/src/contexts/RequestContext.tsx:66-81 | START_REQUEST then SET_RESPONSE ends not loading, with the action's status and data and the request unchanged |
| `RequestContext.RequestFieldsStable` | apps/web/src/contexts/RequestContext.tsx:62-86 | any run of actions without SET_FIELD leaves all request fields unchanged |
| `RequestContext.LoadingFollowsLastLifecycleAction` | apps/web/src/contexts/RequestContext.tsx:66-81 | without SET_FIELD, `isLoading` is true after a final START_REQUEST, false after a final SET_RESPONSE, else unchanged |
| `KeyValueEditor.ApplyEdit` | src/components/shared/KeyValueEditor.tsx:19 | the edited field takes the new value and the other three fields keep theirs |
| `KeyValueEditor.HandleUpdate` | src/components/shared/KeyValueEditor.tsx:17-35 | the copied array with one element overwritten yields exactly the lists of `Emitted`: the updated list, then maybe that list plus a blank row |
| `KeyValueEditor.UpdateTouchesOneField` | src/components/shared/KeyValueEditor.tsx:17-20 | the first list has the same length, the row at the index is the edited row, and every other row is unchanged |
| `KeyValueEditor.AppendShape` | src/components/shared/KeyValueEditor.tsx:23-33 | a second list is emitted exactly when the edit is to the last row, sets key or value non-empty, and the row had a key or value before; it is the first list plus one blank enabled row |
| `KeyValueEditor.NoAppendOutsideLastRowText` | src/components/shared/KeyValueEditor.tsx:24-25 | toggling `enabled`, editing the id, or editing any row but the last never appends |
| `KeyValueEditor.SecondKeystrokeAppends` | src/components/shared/KeyValueEditor.tsx:28 | the first character typed into a blank last row does not append; the second one does |
| `KeyValueEditor.LastEmittedWins` | src/components/shared/KeyValueEditor.tsx:20-32 | dispatching the emitted lists through SET_FIELD leaves the state holding the last one |
| `KeyValueEditor.Remove` | src/components/shared/KeyValueEditor.tsx:37-40 | removal shortens the list by one exactly when the index is valid; `RemoveValidIndex` and `RemoveInvalidIndex` give its closed form |
| `KeyValueEditor.RemoveValidIndex` | src/components/shared/KeyValueEditor.tsx:37-40 | removal at a valid index deletes exactly that row and keeps the others in order |
| `KeyValueEditor.RemoveInvalidIndex` | src/components/shared/KeyValueEditor.tsx:38 | removal at an index outside the list changes nothing |
| `KeyValueEditor.OfferedRemovalKeepsLastRow` | src/components/shared/KeyValueEditor.tsx:81 | a removal the editor offers (not the last row) shortens the list by one, keeps its last row and never empties it |
| `History.NewItem` | src/hooks/useHistory.ts:50-56 | the entry's method and URL come from the request, its status is the given status, id and time are the supplied ones |
| `History.Prepended` | src/hooks/useHistory.ts:58 | the new list has at most 50 entries, the new item first, then the previous entries in their order, the oldest beyond 50 dropped |
| `History.Loaded` | src/hooks/useHistory.ts:18-30 | loading yields the stored list, and the empty list when nothing is stored or the entry does not parse |
| `History.AddedAllIsNewestFirst` | src/hooks/useHistory.ts:44-62 | after several additions the history is the new entries newest first, then the old ones, cut at 50 |
| `History.HistoryHook.constructor` | src/hooks/useHistory.ts:16-42 | the hook starts with the stored list loaded (or the empty list) |
| `History.HistoryHook.LoadHistory` | src/hooks/useHistory.ts:18-30 | the state becomes the stored list, or [] when missing or unparseable; storage unchanged |
| `History.HistoryHook.AddToHistory` | src/hooks/useHistory.ts:44-62 | on an unparseable entry it throws and changes nothing; otherwise storage and state become the capped list with the new entry first |
| `History.HistoryHook.ClearHistory` | src/hooks/useHistory.ts:64-67 | the entry is removed and the reloaded history is empty |
| `UrlBar.ActiveParams` | src/components/request/UrlBar.tsx:44 | the filter keeps only active rows and never grows the list; `ActiveParamsMembers` and `ActiveParamsOrder` characterise it fully |
| `UrlBar.FinalUrl` | src/components/request/UrlBar.tsx:42-52 | a URL that does not parse is sent as typed; `UrlUnchangedWithoutParams` adds the no-params case, and `PrepareRequest` is proved equal to it |
| `UrlBar.HeaderMap` | src/components/request/UrlBar.tsx:55-58 | no header has an empty name, none is named `__proto__` (assigning a string to it on `{}` is ignored), and there are no more headers than rows; `HeaderMapKeys` and `HeaderMapLastWins` characterise it fully |
| `UrlBar.Body` | src/components/request/UrlBar.tsx:61-70 | a body exists only for POST, PUT or PATCH with non-empty content, and then is the parse result; GET, DELETE and invalid JSON give none |
| `UrlBar.PrepareRequest` | src/components/request/UrlBar.tsx:42-70 | the loops give the final URL, the header map and the body of their specification functions |
| `UrlBar.HandleSend` | src/components/request/UrlBar.tsx:38-92 | the payload has the final URL, the method, the header map and the body; the state ends as START_REQUEST then SET_RESPONSE with the send result; if the history call throws, the hook is unchanged; otherwise storage and history hold the capped list whose first entry has the typed `state.url` (not the final URL) and the result's status |
| `UrlBar.ActiveParamsMembers` | src/components/request/UrlBar.tsx:44 | the filter keeps exactly the enabled rows with a non-empty key |
| `UrlBar.ActiveParamsOrder` | src/components/request/UrlBar.tsx:44-47 | the filter keeps list order: filtering a concatenation concatenates the filtered parts |
| `UrlBar.NoActiveParams` | src/components/request/UrlBar.tsx:44-45 | a list with no enabled, keyed row has no active params |
| `UrlBar.UrlUnchangedWithoutParams` | src/components/request/UrlBar.tsx:42-52 | with no active params, or a URL that does not parse, the final URL is `state.url` unchanged |
| `UrlBar.HeaderMapKeys` | src/components/request/UrlBar.tsx:55-58 | a header name is in the map exactly when it is not `__proto__` and some enabled row has that non-empty key |
| `UrlBar.HeaderMapLastWins` | src/components/request/UrlBar.tsx:55-58 | a header's value is that of the last enabled row with that key |
| `UrlBar.ProtoRowSendsNothing` | src/components/request/UrlBar.tsx:55-57 | a single enabled `__proto__` row yields an empty header object |

## Left out

- Network I/O: the axios call, its timeout and abort mechanics, and logging. The upstream
  result is the parameter `upstream`; the limits are modelled as the values placed in the
  outbound configuration.
- URL parsing (`new URL`), `searchParams.append` and `toString`, `JSON.parse` and
  `JSON.stringify`. These are foreign WHATWG and ECMAScript algorithms, so they are
  parameters.
- Strings.ToLower: models `toLowerCase` on ASCII only. The WHATWG parser gives ASCII
  hostnames for `http:` and `https:` URLs, and only those reach the lower-casing.
- Hop-by-hop header filtering: the code has none, so there is nothing to model.
- Express wiring: `app.ts`, `proxy.routes.ts`, both controllers, the zod validation
  middleware (a 400 on a bad payload) and the error middleware (500 for a blocked URL).
- `server/src/controllers/proxy.controller.ts`: it depends on a `ProxyService` that is
  not part of this model.
- Both `api.service.ts` files: fetch and JSON wrappers with timing. `useProxy` only
  reaches them.
- Rendering-only components: `RequestPanel.tsx`, `ResponsePanel.tsx`, `HistoryPanel.tsx`,
  `Sidebar.tsx`, `MainLayout.tsx`, `App.tsx`, and `getMethodColor` in `UrlBar.tsx`.
- `crypto.randomUUID` and `Date.now` are parameters. The storage event reaches only the
  hook being modelled; other mounted hook instances are not modelled.
- History.Stored: a value that parses as JSON but is not a list of entries is not
  modelled. Such an entry would reach the React state as a non-list.
- UrlBar.HandleSend: assumes the store still holds `state` and that no other action is
  dispatched while the request is in flight. React's asynchronous scheduling is not
  modelled.
- JavaScript numbers are modelled as mathematical integers, so `NaN` truthiness and
  fractional times are not represented. `SET_FIELD`'s untyped `value` is modelled as a
  value of the named field's type.
