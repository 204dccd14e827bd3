/** The root controller: navigation, the watchlist and its persistence, the
    two modals and the gate in front of the main content. */
module App {
  import opened Wrappers
  import opened Types
  import Seqs
  import TauriApi

  // ---------------------------------------------------------- toggleWatch

  /** The list `toggleWatch(id)` stores: without `id` when it was present,
      otherwise with `id` appended. */
  function Toggle(ids: seq<int>, id: int): (r: seq<int>)
    ensures id in r <==> id !in ids
    ensures forall x :: x != id ==> (x in r <==> x in ids)
  {
    if id in ids then Seqs.RemoveAll(ids, id) else ids + [id]
  }

  /** A present id is removed entirely; an absent one is appended at the end. */
  lemma ToggleShape(ids: seq<int>, id: int)
    ensures id in ids ==> id !in Toggle(ids, id) && |Toggle(ids, id)| == |ids| - Seqs.Count(ids, id)
    ensures id !in ids ==> Toggle(ids, id) == ids + [id]
  {
    if id in ids { RemoveAllLength(ids, id); }
  }

  lemma {:induction false} RemoveAllLength(s: seq<int>, y: int)
    ensures |Seqs.RemoveAll(s, y)| == |s| - Seqs.Count(s, y)
  {
    if s != [] { RemoveAllLength(s[1..], y); }
  }

  /** A duplicate-free watchlist stays duplicate-free. */
  lemma ToggleNoDup(ids: seq<int>, id: int)
    requires Seqs.NoDup(ids)
    ensures Seqs.NoDup(Toggle(ids, id))
  {
    if id in ids { Seqs.RemoveAllNoDup(ids, id); } else { Seqs.NoDupAppend(ids, id); }
  }

  /** The other ids keep their relative order. */
  lemma ToggleKeepsOrder(ids: seq<int>, id: int)
    ensures Seqs.RemoveAll(Toggle(ids, id), id) == Seqs.RemoveAll(ids, id)
  {
    if id in ids {
      RemoveAllIdempotent(ids, id);
    } else {
      Seqs.RemoveAllAppend(ids, [id], id);
      assert Seqs.RemoveAll([id], id) == [];
    }
  }

  lemma {:induction false} RemoveAllIdempotent(s: seq<int>, y: int)
    ensures Seqs.RemoveAll(Seqs.RemoveAll(s, y), y) == Seqs.RemoveAll(s, y)
  {
    Seqs.RemoveAllAbsent(Seqs.RemoveAll(s, y), y);
  }

  /** Toggling an absent id twice gives the original list back; a present id
      comes back at the end, so the list is equal as a set only. */
  lemma ToggleTwice(ids: seq<int>, id: int)
    ensures id !in ids ==> Toggle(Toggle(ids, id), id) == ids
    ensures id in ids ==> Toggle(Toggle(ids, id), id) == Seqs.RemoveAll(ids, id) + [id]
    ensures (set x | x in Toggle(Toggle(ids, id), id)) == (set x | x in ids)
  {
    if id !in ids {
      var once := ids + [id];
      Seqs.RemoveAllAppend(ids, [id], id);
      Seqs.RemoveAllAbsent(ids, id);
      assert Seqs.RemoveAll([id], id) == [];
      assert Toggle(once, id) == ids;
    }
  }

  /** The watchlist after a series of toggles. */
  function ApplyToggles(ids: seq<int>, toggles: seq<int>): seq<int>
    decreases |toggles|
  {
    if toggles == [] then ids else ApplyToggles(Toggle(ids, toggles[0]), toggles[1..])
  }

  /** After any series of toggles an id is watched exactly when it was watched
      before and toggled an even number of times, or was not watched and
      toggled an odd number of times. */
  lemma {:induction false} TogglesParity(ids: seq<int>, toggles: seq<int>, x: int)
    ensures x in ApplyToggles(ids, toggles) <==> (x in ids <==> Seqs.Count(toggles, x) % 2 == 0)
    decreases |toggles|
  {
    if toggles != [] {
      var t, rest := toggles[0], toggles[1..];
      var next := Toggle(ids, t);
      TogglesParity(next, rest, x);
      var k := if t == x then 1 else 0;
      assert ApplyToggles(ids, toggles) == ApplyToggles(next, rest);
      assert Seqs.Count(toggles, x) == k + Seqs.Count(rest, x);
      assert x in next <==> (x in ids <==> k == 0);
      ParityStep(x in ApplyToggles(next, rest), x in next, x in ids, Seqs.Count(rest, x), k);
    }
  }

  /** One more toggle of an id flips the parity of its count. */
  lemma ParityStep(after: bool, middle: bool, before: bool, n: nat, k: nat)
    requires after <==> (middle <==> n % 2 == 0)
    requires k <= 1 && (middle <==> (before <==> k == 0))
    ensures after <==> (before <==> (k + n) % 2 == 0)
  {
  }

  /** No series of toggles creates a duplicate. */
  lemma {:induction false} TogglesNoDup(ids: seq<int>, toggles: seq<int>)
    requires Seqs.NoDup(ids)
    ensures Seqs.NoDup(ApplyToggles(ids, toggles))
    decreases |toggles|
  {
    if toggles != [] {
      ToggleNoDup(ids, toggles[0]);
      TogglesNoDup(Toggle(ids, toggles[0]), toggles[1..]);
    }
  }

  // ------------------------------------------------------------ rendering

  /** What the main area shows. */
  datatype Content =
    | ConfigurationRequired
    | DashboardPage(watched: seq<int>)
    | ProjectsPage(watched: seq<int>, initialRepoId: Option<int>)
    | KnowledgePage(watched: seq<int>, initialRepoId: Option<int>)
    | AgentPlaceholder

  /** What the whole window shows. */
  datatype Screen =
    | LoadingScreen
    | Shell(view: ViewState, content: Content, watchlistOpen: bool, settingsOpen: bool)

  /** `renderContent()`: the configuration placeholder whenever the keys are
      not configured after loading, otherwise the page of the current view;
      the settings view has no page and shows the dashboard. */
  function RenderContent(view: ViewState, keysConfigured: bool, isLoading: bool,
                         watched: seq<int>, context: Option<int>): (c: Content)
    ensures !keysConfigured && !isLoading ==> c == ConfigurationRequired
    ensures keysConfigured || isLoading ==>
      && (view == ViewDashboard || view == ViewSettings <==> c == DashboardPage(watched))
      && (view == ViewProjects <==> c == ProjectsPage(watched, context))
      && (view == ViewKnowledge <==> c == KnowledgePage(watched, context))
      && (view == ViewAgent <==> c == AgentPlaceholder)
  {
    if !keysConfigured && !isLoading then ConfigurationRequired
    else match view
      case ViewDashboard => DashboardPage(watched)
      case ViewProjects => ProjectsPage(watched, context)
      case ViewKnowledge => KnowledgePage(watched, context)
      case ViewAgent => AgentPlaceholder
      case _ => DashboardPage(watched)
  }

  // ------------------------------------------------------------ controller

  /** The state of the root component. `store` is the bridge's process-wide
      watchlist store; its `isHost` is the host probe. */
  class Controller {
    var currentView: ViewState
    var watchedRepoIds: seq<int>
    var selectedRepoContext: Option<int>
    var isWatchlistOpen: bool
    var isSettingsOpen: bool
    var keysConfigured: bool
    var isLoading: bool
    const store: TauriApi.WatchlistStore

    ghost predicate Valid() reads this, store { store.Valid() }

    constructor (store: TauriApi.WatchlistStore)
      requires store.Valid()
      ensures this.store == store && Valid()
      ensures currentView == ViewDashboard && watchedRepoIds == [] && selectedRepoContext == None
      ensures !isWatchlistOpen && !isSettingsOpen && !keysConfigured && isLoading
    {
      this.store := store;
      currentView := ViewDashboard;
      watchedRepoIds := [];
      selectedRepoContext := None;
      isWatchlistOpen := false;
      isSettingsOpen := false;
      keysConfigured := false;
      isLoading := true;
    }

    /** The mount effect `init()`. `hostKeyStatus` is the host's answer to the
        key-status command. When the status arrives it is stored, settings
        open if it is false, and the persisted watchlist is read; when the
        status call fails nothing else happens. Loading ends either way. */
    method Init(hostKeyStatus: Result<bool>)
      requires Valid()
      modifies this, store
      ensures Valid() && !isLoading
      ensures currentView == old(currentView) && selectedRepoContext == old(selectedRepoContext)
      ensures isWatchlistOpen == old(isWatchlistOpen)
      ensures var status := TauriApi.GetApiKeysStatus(store.isHost, hostKeyStatus);
        if status.Success? then
          && keysConfigured == status.value
          && isSettingsOpen == (old(isSettingsOpen) || !status.value)
          && watchedRepoIds == (if store.isHost && TauriApi.WatchedIdsKey in old(store.entries)
                                then old(store.entries)[TauriApi.WatchedIdsKey] else [])
          && store.entries == old(store.entries) && store.disk == old(store.disk)
          && store.handle == Some(store.ExpectedHandle())
          && store.calls == old(store.calls)
               + (if old(store.handle).None? && store.isHost then [TauriApi.Load(TauriApi.StorePath)] else [])
               + [TauriApi.Get(TauriApi.WatchedIdsKey)]
        else
          && keysConfigured == old(keysConfigured) && isSettingsOpen == old(isSettingsOpen)
          && watchedRepoIds == old(watchedRepoIds) && unchanged(store)
    {
      var status := TauriApi.GetApiKeysStatus(store.isHost, hostKeyStatus);
      if status.Success? {
        keysConfigured := status.value;
        if !status.value {
          isSettingsOpen := true;
        }
        var ids := store.GetWatchedRepoIds();
        watchedRepoIds := ids;
      }
      isLoading := false;
    }

    /** `navigateTo(view, repoId)`: the view always changes; the repository
        context only for a truthy id. */
    method NavigateTo(view: ViewState, repoId: Option<int>)
      modifies this
      ensures currentView == view
      ensures selectedRepoContext == if repoId.Some? && repoId.value != 0 then repoId else old(selectedRepoContext)
      ensures watchedRepoIds == old(watchedRepoIds) && isWatchlistOpen == old(isWatchlistOpen)
      ensures isSettingsOpen == old(isSettingsOpen) && keysConfigured == old(keysConfigured)
      ensures isLoading == old(isLoading)
    {
      currentView := view;
      if repoId.Some? && repoId.value != 0 {
        selectedRepoContext := repoId;
      }
    }

    /** The layout's `setView`: the view changes and nothing else. */
    method SetView(view: ViewState)
      modifies this`currentView
      ensures currentView == view
    {
      currentView := view;
    }

    /** `toggleWatch(id)`: the new list becomes the state and is then written
        to the store, which flushes it. */
    method ToggleWatch(id: int)
      requires Valid()
      modifies this`watchedRepoIds, store
      ensures Valid()
      ensures watchedRepoIds == Toggle(old(watchedRepoIds), id)
      ensures store.isHost ==> store.disk == old(store.entries)[TauriApi.WatchedIdsKey := watchedRepoIds]
      ensures store.isHost ==> store.entries == store.disk
      ensures !store.isHost ==> store.entries == old(store.entries) && store.disk == old(store.disk)
      ensures store.calls == old(store.calls)
                             + (if old(store.handle).None? && store.isHost then [TauriApi.Load(TauriApi.StorePath)] else [])
                             + [TauriApi.Set(TauriApi.WatchedIdsKey, watchedRepoIds), TauriApi.Flush]
    {
      var newIds := Toggle(watchedRepoIds, id);
      watchedRepoIds := newIds;
      store.SetWatchedRepoIds(newIds);
    }

    method OpenWatchlist()
      modifies this`isWatchlistOpen
      ensures isWatchlistOpen
    {
      isWatchlistOpen := true;
    }

    method CloseWatchlist()
      modifies this`isWatchlistOpen
      ensures !isWatchlistOpen
    {
      isWatchlistOpen := false;
    }

    /** The "Open Settings" link of the placeholder. */
    method OpenSettings()
      modifies this`isSettingsOpen
      ensures isSettingsOpen
    {
      isSettingsOpen := true;
    }

    /** The settings modal's `onClose`. */
    method CloseSettings()
      modifies this`isSettingsOpen
      ensures !isSettingsOpen
    {
      isSettingsOpen := false;
    }

    /** The settings modal's `onSaved`: keys count as configured and the modal
        closes. */
    method OnSaved()
      modifies this`keysConfigured, this`isSettingsOpen
      ensures keysConfigured && !isSettingsOpen
    {
      keysConfigured := true;
      isSettingsOpen := false;
    }

    /** The component's output: a loading screen until `init` ends, then the
        shell around `renderContent()` with the two modals. */
    function Render(): (s: Screen)
      reads this
      ensures isLoading <==> s == LoadingScreen
      ensures !isLoading ==> s.content == RenderContent(currentView, keysConfigured, false,
                                                        watchedRepoIds, selectedRepoContext)
      ensures !isLoading && !keysConfigured ==> s.content == ConfigurationRequired
    {
      if isLoading then LoadingScreen
      else Shell(currentView,
                 RenderContent(currentView, keysConfigured, isLoading, watchedRepoIds, selectedRepoContext),
                 isWatchlistOpen, isSettingsOpen)
    }
  }

  /** A session on the desktop host: the persisted watchlist `[101]` is read
      at startup, then watching 103 appends it, and the file ends up holding
      `[101, 103]` after one load, one read, one write and one flush. */
  method StartupThenToggleScenario()
    returns (watched: seq<int>, persisted: seq<int>, ghost calls: seq<TauriApi.StoreCall>)
    ensures watched == [101, 103] && persisted == watched
    ensures calls == [TauriApi.Load(TauriApi.StorePath), TauriApi.Get(TauriApi.WatchedIdsKey),
                      TauriApi.Set(TauriApi.WatchedIdsKey, [101, 103]), TauriApi.Flush]
  {
    var store := new TauriApi.WatchlistStore(true, map[TauriApi.WatchedIdsKey := [101]]);
    var app := new Controller(store);
    app.Init(Success(true));
    assert app.watchedRepoIds == [101];
    app.ToggleWatch(103);
    watched := app.watchedRepoIds;
    assert watched == [101, 103];
    persisted := store.disk[TauriApi.WatchedIdsKey];
    calls := store.calls;
  }
}
