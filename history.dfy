/**
 * `useHistory`: the request history, most recent first and capped at 50 entries, kept
 * in browser storage under one key and mirrored into the hook's React state.
 *
 * The storage entry is read through `JSON.parse`; the model records what that yields:
 * `None` for a missing or empty entry (both falsy), `Items(...)` for a stored list, and
 * `Unparseable` for text `JSON.parse` rejects. `crypto.randomUUID()` and `Date.now()`
 * are the parameters `id` and `now`.
 */
module History {
  import opened Wrappers
  import opened RequestContext

  /** The cap applied by `slice(0, 50)`. */
  const MaxEntries: nat := 50

  datatype HistoryItem = HistoryItem(id: string, timestamp: int, httpMethod: string, url: string, status: Option<int>)

  /** The storage entry as `JSON.parse` sees it. */
  datatype Stored = Items(items: seq<HistoryItem>) | Unparseable

  function MethodName(m: HttpMethod): string {
    match m
    case GET => "GET"
    case POST => "POST"
    case PUT => "PUT"
    case DELETE => "DELETE"
    case PATCH => "PATCH"
  }

  function Min(a: int, b: int): int { if a <= b then a else b }

  /** The entry `addToHistory` records for a request and its status. */
  function NewItem(request: RequestState, status: int, id: string, now: int): (item: HistoryItem)
    ensures item.httpMethod == MethodName(request.httpMethod) && item.url == request.url
    ensures item.status == Some(status) && item.id == id && item.timestamp == now
  {
    HistoryItem(id, now, MethodName(request.httpMethod), request.url, Some(status))
  }

  /** `[item, ...current].slice(0, 50)`. */
  function Prepended(item: HistoryItem, current: seq<HistoryItem>): (r: seq<HistoryItem>)
    ensures |r| == Min(|current| + 1, MaxEntries)
    ensures r[0] == item
    ensures r[1..] == current[..Min(|current|, MaxEntries - 1)]
  {
    ([item] + current)[..Min(|current| + 1, MaxEntries)]
  }

  /** What `loadHistory` puts into the React state: the stored list, or the empty list. */
  function Loaded(stored: Option<Stored>): (r: seq<HistoryItem>)
    ensures stored.Some? && stored.value.Items? ==> r == stored.value.items
    ensures stored.None? || stored == Some(Unparseable) ==> r == []
  {
    match stored
    case Some(Items(items)) => items
    case _ => []
  }

  /** The history after `addToHistory` is called for each of `added`, first to last. */
  function AddedAll(current: seq<HistoryItem>, added: seq<HistoryItem>): seq<HistoryItem>
    decreases |added|
  {
    if added == [] then current
    else Prepended(added[|added| - 1], AddedAll(current, added[..|added| - 1]))
  }

  function Reversed(s: seq<HistoryItem>): (r: seq<HistoryItem>)
    ensures |r| == |s|
    decreases |s|
  {
    if s == [] then [] else [s[|s| - 1]] + Reversed(s[..|s| - 1])
  }

  /** After several additions the history is the new entries, newest first, then the old ones, cut at 50. */
  lemma {:induction false} AddedAllIsNewestFirst(current: seq<HistoryItem>, added: seq<HistoryItem>)
    requires |current| <= MaxEntries
    ensures AddedAll(current, added) == (Reversed(added) + current)[..Min(|added| + |current|, MaxEntries)]
  {
    if added != [] {
      var init := added[..|added| - 1];
      var x := added[|added| - 1];
      AddedAllIsNewestFirst(current, init);
      var whole := Reversed(init) + current;
      var m := Min(|init| + |current|, MaxEntries);
      assert AddedAll(current, init) == whole[..m];
      assert Reversed(added) + current == [x] + whole;
      calc {
        AddedAll(current, added);
        Prepended(x, whole[..m]);
        ([x] + whole[..m])[..Min(m + 1, MaxEntries)];
        { assert [x] + whole[..m] == ([x] + whole)[..m + 1]; }
        ([x] + whole)[..m + 1][..Min(m + 1, MaxEntries)];
        ([x] + whole)[..Min(|added| + |current|, MaxEntries)];
      }
    }
  }

  /** The hook: `stored` is the browser storage entry, `history` the hook's React state. */
  class HistoryHook {
    var stored: Option<Stored>
    var history: seq<HistoryItem>

    /** `useState([])`, then the mount effect's first `loadHistory()`. */
    constructor (initialStore: Option<Stored>)
      ensures stored == initialStore && history == Loaded(initialStore)
    {
      stored := initialStore;
      history := [];
      new;
      LoadHistory();
    }

    /** `loadHistory`: copy the stored list into the state; anything missing or unparseable gives []. */
    method LoadHistory()
      modifies this`history
      ensures history == Loaded(stored)
    {
      match stored {
        case Some(Items(items)) => history := items;
        case Some(Unparseable) => history := [];
        case None => history := [];
      }
    }

    /**
     * `addToHistory(request, status)`. It parses the stored entry WITHOUT a `try`, so an
     * unparseable entry makes it throw before anything is written. Otherwise the new list
     * is stored and the update event makes this hook reload it.
     */
    method AddToHistory(request: RequestState, status: int, id: string, now: int) returns (threw: bool)
      modifies this
      ensures threw <==> old(stored) == Some(Unparseable)
      ensures threw ==> stored == old(stored) && history == old(history)
      ensures !threw ==>
        && stored == Some(Items(Prepended(NewItem(request, status, id, now), Loaded(old(stored)))))
        && history == Prepended(NewItem(request, status, id, now), Loaded(old(stored)))
    {
      var currentHistory: seq<HistoryItem>;
      match stored {
        case Some(Unparseable) => return true;
        case Some(Items(items)) => currentHistory := items;
        case None => currentHistory := [];
      }
      var newHistory := Prepended(NewItem(request, status, id, now), currentHistory);
      stored := Some(Items(newHistory));
      LoadHistory();
      threw := false;
    }

    /** `clearHistory`: remove the entry; the update event reloads the now empty history. */
    method ClearHistory()
      modifies this
      ensures stored.None? && history == []
    {
      stored := None;
      LoadHistory();
    }
  }
}
