/**
 * `UrlBar.handleSend`: turn the edited request into the payload sent to the proxy,
 * then record the outcome in the request state and in the history.
 *
 * Foreign algorithms are parameters: `parseUrl` is `new URL(...)` seen through its query
 * pairs (`None` when it throws), `serialize` is `u.toString()`, `parseJson` is
 * `JSON.parse` (`None` when it throws) and `sendRequest` is `ApiService.sendRequest`.
 */
module UrlBar {
  import opened Wrappers
  import opened Json
  import opened RequestContext
  import History

  /** A parsed URL: everything but the query, and the query's `searchParams` pairs in order. */
  datatype SearchUrl = SearchUrl(rest: string, searchParams: seq<(string, string)>)

  /** The object handed to `ApiService.sendRequest`. */
  datatype Payload = Payload(url: string, httpMethod: HttpMethod, headers: map<string, string>, body: Option<Json>)

  /** What `ApiService.sendRequest` resolves with. */
  datatype ApiResult = ApiResult(data: Json, status: int, time: int, size: int)

  /** `p.enabled && p.key` (and `h.enabled && h.key`): a row that takes part in the request. */
  predicate IsActive(row: KeyValue) {
    row.enabled && row.key != ""
  }

  /**
   * The key whose assignment on an object literal reaches the `__proto__` setter inherited
   * from `Object.prototype`. Given a string value, that setter does nothing, so no header is created.
   */
  const ProtoKey: string := "__proto__"

  /** A header row whose `headers[h.key] = h.value` creates an entry: active, and not `__proto__`. */
  predicate SetsHeader(row: KeyValue) {
    IsActive(row) && row.key != ProtoKey
  }

  /** `state.queryParams.filter((p) => p.enabled && p.key)`. */
  function ActiveParams(rows: seq<KeyValue>): (r: seq<KeyValue>)
    ensures |r| <= |rows|
    ensures forall i | 0 <= i < |r| :: IsActive(r[i])
    decreases |rows|
  {
    if rows == [] then []
    else
      var last := rows[|rows| - 1];
      ActiveParams(rows[..|rows| - 1]) + (if IsActive(last) then [last] else [])
  }

  /** The `(key, value)` pairs that `searchParams.append` receives for `rows`, in order. */
  function Pairs(rows: seq<KeyValue>): (r: seq<(string, string)>)
    ensures |r| == |rows|
    ensures forall i | 0 <= i < |rows| :: r[i] == (rows[i].key, rows[i].value)
  {
    seq(|rows|, i requires 0 <= i < |rows| => (rows[i].key, rows[i].value))
  }

  /** The URL sent: `state.url`, unless there are active params and it parses, then the URL with them appended. */
  function FinalUrl(state: RequestState, parseUrl: string -> Option<SearchUrl>, serialize: SearchUrl -> string): (url: string)
    ensures parseUrl(state.url).None? ==> url == state.url
  {
    var active := ActiveParams(state.queryParams);
    if |active| == 0 then state.url
    else
      match parseUrl(state.url)
      case None => state.url
      case Some(u) => serialize(u.(searchParams := u.searchParams + Pairs(active)))
  }

  /**
   * The `headers` object built by the `forEach`: a later active row overwrites an earlier
   * one with the same key, and a `__proto__` row leaves no entry.
   */
  function HeaderMap(rows: seq<KeyValue>): (headers: map<string, string>)
    ensures forall k | k in headers :: k != ""
    ensures ProtoKey !in headers
    ensures |headers| <= |rows|
    decreases |rows|
  {
    if rows == [] then map[]
    else
      var last := rows[|rows| - 1];
      var earlier := HeaderMap(rows[..|rows| - 1]);
      if SetsHeader(last) then earlier[last.key := last.value] else earlier
  }

  /** Methods that may carry a body. */
  predicate HasBodyMethod(m: HttpMethod) {
    m == POST || m == PUT || m == PATCH
  }

  /** The body: the parsed `bodyContent` for POST, PUT and PATCH with non-empty content; otherwise none. */
  function Body(m: HttpMethod, bodyContent: string, parseJson: string -> Option<Json>): (body: Option<Json>)
    ensures body.Some? ==> HasBodyMethod(m) && bodyContent != "" && parseJson(bodyContent) == body
    ensures HasBodyMethod(m) && bodyContent != "" ==> body == parseJson(bodyContent)
    ensures m == GET || m == DELETE ==> body.None?
  {
    if HasBodyMethod(m) && bodyContent != "" then parseJson(bodyContent) else None
  }

  /** Steps 1 to 3 of `handleSend`: the URL with its params, the header map and the body. */
  method PrepareRequest(
    state: RequestState,
    parseUrl: string -> Option<SearchUrl>,
    serialize: SearchUrl -> string,
    parseJson: string -> Option<Json>) returns (payload: Payload)
    ensures payload.url == FinalUrl(state, parseUrl, serialize)
    ensures payload.httpMethod == state.httpMethod
    ensures payload.headers == HeaderMap(state.headers)
    ensures payload.body == Body(state.httpMethod, state.bodyContent, parseJson)
  {
    // 1. the URL with its params
    var finalUrl := state.url;
    var activeParams := ActiveParams(state.queryParams);
    if |activeParams| > 0 {
      match parseUrl(state.url) {
        case None =>
        case Some(u) =>
          var params := u.searchParams;
          var i := 0;
          while i < |activeParams|
            invariant 0 <= i <= |activeParams|
            invariant params == u.searchParams + Pairs(activeParams[..i])
          {
            params := params + [(activeParams[i].key, activeParams[i].value)];
            i := i + 1;
            assert Pairs(activeParams[..i]) == Pairs(activeParams[..i - 1]) + [(activeParams[i - 1].key, activeParams[i - 1].value)];
          }
          assert activeParams[..i] == activeParams;
          finalUrl := serialize(u.(searchParams := params));
      }
    }

    // 2. the headers
    var headers: map<string, string> := map[];
    var j := 0;
    while j < |state.headers|
      invariant 0 <= j <= |state.headers|
      invariant headers == HeaderMap(state.headers[..j])
    {
      var h := state.headers[j];
      if h.enabled && h.key != "" {
        // on an object literal, assigning a string to `__proto__` is ignored
        if h.key != ProtoKey {
          headers := headers[h.key := h.value];
        }
      }
      j := j + 1;
      assert state.headers[..j][..j - 1] == state.headers[..j - 1];
    }
    assert state.headers[..j] == state.headers;

    // 3. the body
    var body: Option<Json> := None;
    if HasBodyMethod(state.httpMethod) && state.bodyContent != "" {
      body := parseJson(state.bodyContent);
    }

    payload := Payload(finalUrl, state.httpMethod, headers, body);
  }

  /**
   * `handleSend` as a whole, for a store that holds `state` when Send is pressed and sees
   * no other dispatch meanwhile: dispatch `START_REQUEST`, send the prepared payload,
   * dispatch `SET_RESPONSE`, then record the request in the history. The history entry is
   * built from `state` itself, so it keeps the URL as typed, without the appended params.
   */
  method HandleSend(
    state: RequestState,
    parseUrl: string -> Option<SearchUrl>,
    serialize: SearchUrl -> string,
    parseJson: string -> Option<Json>,
    sendRequest: Payload -> ApiResult,
    hook: History.HistoryHook,
    id: string,
    now: int) returns (payload: Payload, finalState: RequestState, threw: bool)
    modifies hook
    ensures payload.url == FinalUrl(state, parseUrl, serialize)
    ensures payload.headers == HeaderMap(state.headers)
    ensures payload.body == Body(state.httpMethod, state.bodyContent, parseJson)
    ensures finalState == Reduce(Reduce(state, StartRequest),
      SetResponse(sendRequest(payload).data, sendRequest(payload).status, sendRequest(payload).time, sendRequest(payload).size))
    ensures threw <==> old(hook.stored) == Some(History.Unparseable)
    ensures payload.httpMethod == state.httpMethod
    ensures threw ==> hook.stored == old(hook.stored) && hook.history == old(hook.history)
    ensures !threw ==> hook.stored == Some(History.Items(hook.history))
    ensures !threw ==>
      && hook.history == History.Prepended(History.NewItem(state, sendRequest(payload).status, id, now), History.Loaded(old(hook.stored)))
      && hook.history[0].url == state.url
      && hook.history[0].status == Some(sendRequest(payload).status)
  {
    var loading := Reduce(state, StartRequest);
    payload := PrepareRequest(state, parseUrl, serialize, parseJson);
    var result := sendRequest(payload);
    finalState := Reduce(loading, SetResponse(result.data, result.status, result.time, result.size));
    threw := hook.AddToHistory(state, result.status, id, now);
  }

  /** The filter keeps exactly the active rows. */
  lemma {:induction false} ActiveParamsMembers(rows: seq<KeyValue>)
    ensures forall p | p in ActiveParams(rows) :: IsActive(p) && p in rows
    ensures forall i | 0 <= i < |rows| && IsActive(rows[i]) :: rows[i] in ActiveParams(rows)
  {
    if rows != [] {
      ActiveParamsMembers(rows[..|rows| - 1]);
      assert rows == rows[..|rows| - 1] + [rows[|rows| - 1]];
      forall i | 0 <= i < |rows| - 1 && IsActive(rows[i]) ensures rows[i] in ActiveParams(rows) {
        assert rows[..|rows| - 1][i] == rows[i];
      }
    }
  }

  /** The filter keeps list order: filtering a concatenation concatenates the filtered parts. */
  lemma {:induction false} ActiveParamsOrder(a: seq<KeyValue>, b: seq<KeyValue>)
    ensures ActiveParams(a + b) == ActiveParams(a) + ActiveParams(b)
    decreases |b|
  {
    if b == [] {
      assert a + b == a;
    } else {
      var b' := b[..|b| - 1];
      ActiveParamsOrder(a, b');
      assert (a + b)[..|a + b| - 1] == a + b';
      assert (a + b)[|a + b| - 1] == b[|b| - 1];
    }
  }

  /** A list without active rows filters to nothing. */
  lemma {:induction false} NoActiveParams(rows: seq<KeyValue>)
    requires forall i | 0 <= i < |rows| :: !IsActive(rows[i])
    ensures ActiveParams(rows) == []
  {
    if rows != [] {
      NoActiveParams(rows[..|rows| - 1]);
    }
  }

  /** With no active params, or when the URL does not parse, the URL is sent exactly as typed. */
  lemma UrlUnchangedWithoutParams(state: RequestState, parseUrl: string -> Option<SearchUrl>, serialize: SearchUrl -> string)
    requires (forall i | 0 <= i < |state.queryParams| :: !IsActive(state.queryParams[i])) || parseUrl(state.url).None?
    ensures FinalUrl(state, parseUrl, serialize) == state.url
  {
    if forall i | 0 <= i < |state.queryParams| :: !IsActive(state.queryParams[i]) {
      NoActiveParams(state.queryParams);
    }
  }

  /** A header name is present exactly when some active row has it, `__proto__` excepted. */
  lemma {:induction false} HeaderMapKeys(rows: seq<KeyValue>, k: string)
    ensures k in HeaderMap(rows) <==> k != ProtoKey && exists i | 0 <= i < |rows| :: IsActive(rows[i]) && rows[i].key == k
  {
    if rows != [] {
      var init := rows[..|rows| - 1];
      HeaderMapKeys(init, k);
      if exists i | 0 <= i < |init| :: IsActive(init[i]) && init[i].key == k {
        var i :| 0 <= i < |init| && IsActive(init[i]) && init[i].key == k;
        assert rows[i] == init[i];
      }
      if exists i | 0 <= i < |rows| :: IsActive(rows[i]) && rows[i].key == k {
        var i :| 0 <= i < |rows| && IsActive(rows[i]) && rows[i].key == k;
        if i < |init| {
          assert init[i] == rows[i];
        }
      }
    }
  }

  /** A header's value comes from the last active row with that name. */
  lemma {:induction false} HeaderMapLastWins(rows: seq<KeyValue>, i: nat)
    requires i < |rows| && SetsHeader(rows[i])
    requires forall j | i < j < |rows| :: !(IsActive(rows[j]) && rows[j].key == rows[i].key)
    ensures rows[i].key in HeaderMap(rows) && HeaderMap(rows)[rows[i].key] == rows[i].value
  {
    var init := rows[..|rows| - 1];
    if i < |rows| - 1 {
      assert init[i] == rows[i];
      forall j | i < j < |init| ensures !(IsActive(init[j]) && init[j].key == init[i].key) {
        assert init[j] == rows[j];
      }
      HeaderMapLastWins(init, i);
    }
  }

  /** An enabled `__proto__` row sends no header at all. */
  lemma ProtoRowSendsNothing(id: string, value: string)
    ensures HeaderMap([KeyValue(id, ProtoKey, value, true)]) == map[]
  {
    assert HeaderMap([KeyValue(id, ProtoKey, value, true)][..0]) == map[];
  }
}
