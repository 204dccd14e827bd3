/** The host bridge: each call goes to the desktop host when the host probe
    `isHost` holds and falls back to an inert answer otherwise. The host's own
    answer to a call is a parameter (`host...`), since the host is not part of
    this model. Also the lazily acquired key-value store that keeps the
    watchlist. */
module TauriApi {
  import opened Wrappers
  import opened Types

  /** `saveApiKeys(github, jules)`: without a host nothing is stored and the
      call succeeds. */
  function SaveApiKeys(isHost: bool, github: string, jules: string, hostResult: Outcome): (r: Outcome)
    ensures !isHost ==> r == Pass
    ensures isHost ==> r == hostResult
  {
    if !isHost then Pass else hostResult
  }

  /** `getApiKeysStatus()`: without a host the keys count as not configured. */
  function GetApiKeysStatus(isHost: bool, hostAnswer: Result<bool>): (r: Result<bool>)
    ensures !isHost ==> r == Success(false)
    ensures isHost ==> r == hostAnswer
  {
    if !isHost then Success(false) else hostAnswer
  }

  /** `searchGithubRepos(query)`: the empty query is answered before the host
      is asked; without a host every search finds nothing. */
  function SearchGithubRepos(isHost: bool, query: string, hostAnswer: Result<seq<Repo>>): (r: Result<seq<Repo>>)
    ensures query == "" || !isHost ==> r == Success([])
    ensures query != "" && isHost ==> r == hostAnswer
  {
    if query == "" then Success([])
    else if !isHost then Success([])
    else hostAnswer
  }

  const EmptyDetails := RepoDetails([], [], [])

  /** `fetchRepoDetails(repoId, owner, name)`: without a host an empty bundle. */
  function FetchRepoDetails(isHost: bool, repoId: int, owner: string, name: string,
                            hostAnswer: Result<RepoDetails>): (r: Result<RepoDetails>)
    ensures !isHost ==> r.Success? && r.value.issues == [] && r.value.prs == [] && r.value.files == []
    ensures isHost ==> r == hostAnswer
  {
    if !isHost then Success(EmptyDetails) else hostAnswer
  }

  /** `dispatchJulesAgent(taskId, prompt)`: without a host an inert session. */
  function DispatchJulesAgent(isHost: bool, taskId: string, prompt: string,
                              hostAnswer: Result<AgentResponse>): (r: Result<AgentResponse>)
    ensures !isHost ==> r == Success(AgentResponse("mock", "mock-running", []))
    ensures isHost ==> r == hostAnswer
  {
    if !isHost then Success(AgentResponse("mock", "mock-running", [])) else hostAnswer
  }

  // ------------------------------------------------------- watchlist store

  const StorePath := "watchlist.json"
  const WatchedIdsKey := "watched_ids"

  /** The object `init` keeps: the host store loaded from `StorePath`, or the
      inert stand-in whose `get` answers `[]` and whose `set`/`save` do nothing. */
  datatype StoreHandle = HostStore(path: string) | InertStore

  /** The calls the bridge makes on its store, in order. */
  datatype StoreCall = Load(path: string) | Get(key: string) | Set(key: string, ids: seq<int>) | Flush

  function CountLoads(calls: seq<StoreCall>): nat {
    if calls == [] then 0 else (if calls[0].Load? then 1 else 0) + CountLoads(calls[1..])
  }

  lemma {:induction false} CountLoadsAppend(a: seq<StoreCall>, b: seq<StoreCall>)
    ensures CountLoads(a + b) == CountLoads(a) + CountLoads(b)
  {
    if a != [] {
      assert (a + b)[1..] == a[1..] + b;
      CountLoadsAppend(a[1..], b);
    } else {
      assert a + b == b;
    }
  }

  /** The process-wide store of the bridge (`WatchlistStore.store`). `entries`
      is what the store holds in memory and `disk` what was last flushed to
      `StorePath`; before the store is loaded the two agree, because loading
      reads the file. */
  class WatchlistStore {
    const isHost: bool
    var handle: Option<StoreHandle>
    var entries: map<string, seq<int>>
    var disk: map<string, seq<int>>
    ghost var calls: seq<StoreCall>

    /** The handle `init` acquires for this environment. */
    function ExpectedHandle(): StoreHandle reads this {
      if isHost then HostStore(StorePath) else InertStore
    }

    ghost predicate Valid() reads this {
      && (handle.Some? ==> handle.value == ExpectedHandle())
      && CountLoads(calls) == (if handle.Some? && isHost then 1 else 0)
      && (handle.None? || !isHost ==> entries == disk)
    }

    /** The store as the module starts: no handle yet; `persisted` is what the
        file held from an earlier run. */
    constructor (isHost: bool, persisted: map<string, seq<int>>)
      ensures this.isHost == isHost && handle == None
      ensures entries == persisted && disk == persisted && calls == []
      ensures Valid()
    {
      this.isHost := isHost;
      handle := None;
      entries := persisted;
      disk := persisted;
      calls := [];
    }

    /** `WatchlistStore.init()`: acquires the handle on the first call only;
        every call returns the one handle. */
    method Init() returns (h: StoreHandle)
      requires Valid()
      modifies this
      ensures Valid() && handle == Some(h) && h == ExpectedHandle()
      ensures old(handle).Some? ==> h == old(handle).value && calls == old(calls)
      ensures old(handle).None? && isHost ==> calls == old(calls) + [Load(StorePath)]
      ensures old(handle).None? && !isHost ==> calls == old(calls)
      ensures entries == old(entries) && disk == old(disk)
    {
      if handle.None? {
        if isHost {
          // load(STORE_PATH) reads the file into memory: entries == disk
          calls := calls + [Load(StorePath)];
          CountLoadsAppend(old(calls), [Load(StorePath)]);
          handle := Some(HostStore(StorePath));
        } else {
          handle := Some(InertStore);
        }
      }
      h := handle.value;
    }

    /** `getWatchedRepoIds()`: the stored list, or `[]` when the key is absent or
        there is no host. */
    method GetWatchedRepoIds() returns (ids: seq<int>)
      requires Valid()
      modifies this
      ensures Valid() && handle == Some(ExpectedHandle())
      ensures ids == if isHost && WatchedIdsKey in entries then entries[WatchedIdsKey] else []
      ensures entries == old(entries) && disk == old(disk)
      ensures calls == old(calls) + (if old(handle).None? && isHost then [Load(StorePath)] else []) + [Get(WatchedIdsKey)]
    {
      var h := Init();
      ghost var acquired := calls;
      calls := calls + [Get(WatchedIdsKey)];
      CountLoadsAppend(acquired, [Get(WatchedIdsKey)]);
      assert CountLoads([Get(WatchedIdsKey)]) == 0;
      if h.HostStore? && WatchedIdsKey in entries {
        ids := entries[WatchedIdsKey];
      } else {
        ids := [];
      }
    }

    /** `setWatchedRepoIds(ids)`: writes the key, then flushes the store to disk. */
    method SetWatchedRepoIds(ids: seq<int>)
      requires Valid()
      modifies this
      ensures Valid() && handle == Some(ExpectedHandle())
      ensures isHost ==> entries == old(entries)[WatchedIdsKey := ids] && disk == entries
      ensures !isHost ==> entries == old(entries) && disk == old(disk)
      ensures calls == old(calls) + (if old(handle).None? && isHost then [Load(StorePath)] else [])
                                  + [Set(WatchedIdsKey, ids), Flush]
    {
      var h := Init();
      ghost var acquired := calls;
      calls := calls + [Set(WatchedIdsKey, ids)];
      if h.HostStore? {
        entries := entries[WatchedIdsKey := ids];
      }
      calls := calls + [Flush];
      if h.HostStore? {
        disk := entries;
      }
      assert calls == acquired + [Set(WatchedIdsKey, ids), Flush];
      CountLoadsAppend(acquired, [Set(WatchedIdsKey, ids), Flush]);
      assert CountLoads([Set(WatchedIdsKey, ids), Flush]) == CountLoads([Flush]) == 0;
    }
  }

  /** A write followed by a read gives the written list back with a host,
      and the empty list without one, whatever the file held before. */
  method ReadAfterWrite(isHost: bool, persisted: map<string, seq<int>>, ids: seq<int>)
    returns (read: seq<int>)
    ensures read == if isHost then ids else []
  {
    var store := new WatchlistStore(isHost, persisted);
    store.SetWatchedRepoIds(ids);
    read := store.GetWatchedRepoIds();
  }
}
