/**
 * The client's request state and `requestReducer`, the pure state machine every dispatched
 * action goes through. Untyped values (`response: any`) are JSON values; JavaScript `null`
 * is `None` for the numeric fields and `Null` for the response.
 */
module RequestContext {
  import opened Wrappers
  import opened Json

  datatype HttpMethod = GET | POST | PUT | DELETE | PATCH

  /** One editable row of query parameters or headers. */
  datatype KeyValue = KeyValue(id: string, key: string, value: string, enabled: bool)

  /** `bodyType`: "none" | "json" | "form". */
  datatype BodyType = NoBody | JsonBody | FormBody

  datatype RequestState = RequestState(
    httpMethod: HttpMethod,
    url: string,
    queryParams: seq<KeyValue>,
    headers: seq<KeyValue>,
    bodyType: BodyType,
    bodyContent: string,
    isLoading: bool,
    response: Json,
    responseStatus: Option<int>,
    responseTime: Option<int>,
    responseSize: Option<int>)

  /** `keyof RequestState`. */
  datatype Field =
    | MethodField | UrlField | QueryParamsField | HeadersField | BodyTypeField | BodyContentField
    | IsLoadingField | ResponseField | ResponseStatusField | ResponseTimeField | ResponseSizeField

  /** A field's name together with a value of that field's type: what `SET_FIELD` carries. */
  datatype FieldValue =
    | MethodValue(m: HttpMethod)
    | UrlValue(u: string)
    | QueryParamsValue(params: seq<KeyValue>)
    | HeadersValue(rows: seq<KeyValue>)
    | BodyTypeValue(t: BodyType)
    | BodyContentValue(content: string)
    | IsLoadingValue(loading: bool)
    | ResponseValue(data: Json)
    | ResponseStatusValue(status: Option<int>)
    | ResponseTimeValue(time: Option<int>)
    | ResponseSizeValue(size: Option<int>)

  /** The fields that describe the request being edited, as opposed to its response. */
  predicate IsRequestField(f: Field) {
    f in {MethodField, UrlField, QueryParamsField, HeadersField, BodyTypeField, BodyContentField}
  }

  function FieldOf(v: FieldValue): Field {
    match v
    case MethodValue(_) => MethodField
    case UrlValue(_) => UrlField
    case QueryParamsValue(_) => QueryParamsField
    case HeadersValue(_) => HeadersField
    case BodyTypeValue(_) => BodyTypeField
    case BodyContentValue(_) => BodyContentField
    case IsLoadingValue(_) => IsLoadingField
    case ResponseValue(_) => ResponseField
    case ResponseStatusValue(_) => ResponseStatusField
    case ResponseTimeValue(_) => ResponseTimeField
    case ResponseSizeValue(_) => ResponseSizeField
  }

  /** `state[field]`. */
  function Get(s: RequestState, f: Field): (v: FieldValue)
    ensures FieldOf(v) == f
  {
    match f
    case MethodField => MethodValue(s.httpMethod)
    case UrlField => UrlValue(s.url)
    case QueryParamsField => QueryParamsValue(s.queryParams)
    case HeadersField => HeadersValue(s.headers)
    case BodyTypeField => BodyTypeValue(s.bodyType)
    case BodyContentField => BodyContentValue(s.bodyContent)
    case IsLoadingField => IsLoadingValue(s.isLoading)
    case ResponseField => ResponseValue(s.response)
    case ResponseStatusField => ResponseStatusValue(s.responseStatus)
    case ResponseTimeField => ResponseTimeValue(s.responseTime)
    case ResponseSizeField => ResponseSizeValue(s.responseSize)
  }

  /** `{ ...state, [field]: value }`. */
  function With(s: RequestState, v: FieldValue): (r: RequestState)
    ensures Get(r, FieldOf(v)) == v
    ensures forall f | f != FieldOf(v) :: Get(r, f) == Get(s, f)
  {
    match v
    case MethodValue(m) => s.(httpMethod := m)
    case UrlValue(u) => s.(url := u)
    case QueryParamsValue(p) => s.(queryParams := p)
    case HeadersValue(h) => s.(headers := h)
    case BodyTypeValue(t) => s.(bodyType := t)
    case BodyContentValue(c) => s.(bodyContent := c)
    case IsLoadingValue(l) => s.(isLoading := l)
    case ResponseValue(d) => s.(response := d)
    case ResponseStatusValue(st) => s.(responseStatus := st)
    case ResponseTimeValue(t) => s.(responseTime := t)
    case ResponseSizeValue(z) => s.(responseSize := z)
  }

  /** The request fields of `a` and `b` agree. */
  predicate SameRequest(a: RequestState, b: RequestState) {
    forall f | IsRequestField(f) :: Get(a, f) == Get(b, f)
  }

  /** An edit of one field of a `KeyValue` row (`keyof KeyValue` with a value of its type). */
  datatype RowEdit = EditId(newId: string) | EditKey(newKey: string) | EditValue(newValue: string) | EditEnabled(newEnabled: bool)

  datatype Action =
    | SetField(update: FieldValue)
    | UpdateParam(paramId: string, edit: RowEdit)
    | AddParam
    | RemoveParam(removeId: string)
    | StartRequest
    | SetResponse(data: Json, status: int, time: int, size: int)
    | ResetResponse

  /** `initialState`. */
  const InitialState: RequestState := RequestState(
    GET,
    "https://jsonplaceholder.typicode.com/todos/1",
    [KeyValue("1", "", "", true)],
    [KeyValue("1", "Content-Type", "application/json", true)],
    NoBody,
    "",
    false,
    Null,
    None,
    None,
    None)

  /** `requestReducer`. */
  function Reduce(state: RequestState, action: Action): (r: RequestState)
    ensures action.SetField? ==>
      && Get(r, FieldOf(action.update)) == action.update
      && forall f | f != FieldOf(action.update) :: Get(r, f) == Get(state, f)
    ensures action.StartRequest? ==>
      && r.isLoading && r.response == Null && r.responseStatus.None?
      && forall f | f !in {IsLoadingField, ResponseField, ResponseStatusField} :: Get(r, f) == Get(state, f)
    ensures action.SetResponse? ==>
      && !r.isLoading
      && r.response == action.data
      && r.responseStatus == Some(action.status)
      && r.responseTime == Some(action.time)
      && r.responseSize == Some(action.size)
      && SameRequest(r, state)
    ensures (action.UpdateParam? || action.AddParam? || action.RemoveParam? || action.ResetResponse?) ==>
      r == state
  {
    match action
    case SetField(v) => With(state, v)
    case StartRequest => state.(isLoading := true, response := Null, responseStatus := None)
    case SetResponse(data, status, time, size) =>
      state.(isLoading := false, response := data, responseStatus := Some(status),
             responseTime := Some(time), responseSize := Some(size))
    case _ => state
  }

  /** The state after dispatching `actions` in order. */
  function ReduceAll(state: RequestState, actions: seq<Action>): RequestState
    decreases |actions|
  {
    if actions == [] then state
    else Reduce(ReduceAll(state, actions[..|actions| - 1]), actions[|actions| - 1])
  }

  /** The most recent `START_REQUEST` or `SET_RESPONSE` among `actions`, if any. */
  function LastLifecycleAction(actions: seq<Action>): Option<Action>
    decreases |actions|
  {
    if actions == [] then None
    else
      var last := actions[|actions| - 1];
      if last.StartRequest? || last.SetResponse? then Some(last)
      else LastLifecycleAction(actions[..|actions| - 1])
  }

  /** The initial state: GET, not loading, no response yet, one blank enabled query row. */
  lemma InitialStateShape()
    ensures InitialState.httpMethod == GET && !InitialState.isLoading
    ensures InitialState.response == Null && InitialState.responseStatus.None?
    ensures InitialState.responseTime.None? && InitialState.responseSize.None?
    ensures |InitialState.queryParams| == 1
    ensures InitialState.queryParams[0].key == "" && InitialState.queryParams[0].value == ""
    ensures InitialState.queryParams[0].enabled
  {
  }

  /** A request cycle: `START_REQUEST` then `SET_RESPONSE` ends idle, with the response's status, request untouched. */
  lemma RequestCycle(s: RequestState, data: Json, status: int, time: int, size: int)
    ensures var r := Reduce(Reduce(s, StartRequest), SetResponse(data, status, time, size));
      && !r.isLoading
      && r.responseStatus == Some(status)
      && r.response == data
      && SameRequest(r, s)
  {
  }

  /** Only `SET_FIELD` edits the request: any run of other actions leaves the request fields as they were. */
  lemma {:induction false} RequestFieldsStable(s: RequestState, actions: seq<Action>)
    requires forall i | 0 <= i < |actions| :: !actions[i].SetField?
    ensures SameRequest(ReduceAll(s, actions), s)
  {
    if actions != [] {
      var init := actions[..|actions| - 1];
      RequestFieldsStable(s, init);
      var prev := ReduceAll(s, init);
      var r := Reduce(prev, actions[|actions| - 1]);
      forall f | IsRequestField(f) ensures Get(r, f) == Get(s, f) {
        assert Get(r, f) == Get(prev, f);
      }
    }
  }

  /**
   * Without `SET_FIELD`, `isLoading` is set by the most recent lifecycle action:
   * true after `START_REQUEST`, false after `SET_RESPONSE`, unchanged if there was none.
   */
  lemma {:induction false} LoadingFollowsLastLifecycleAction(s: RequestState, actions: seq<Action>)
    requires forall i | 0 <= i < |actions| :: !actions[i].SetField?
    ensures ReduceAll(s, actions).isLoading ==
      match LastLifecycleAction(actions)
      case None => s.isLoading
      case Some(a) => a.StartRequest?
  {
    if actions != [] {
      LoadingFollowsLastLifecycleAction(s, actions[..|actions| - 1]);
    }
  }
}
