/** The dashboard: it loads the bundle of every watched repository one after
    another into a record keyed by id, shows the total number of issues over
    that record, and one card per watched repository with its issue and pull
    request counts. */
module Dashboard {
  import opened Wrappers
  import opened Types
  import MockApi
  import Seqs

  // ------------------------------------------------------------ the total

  /** A key of a non-empty set that is below or equal to all others. */
  lemma {:induction false} Minimum(keys: set<int>) returns (k: int)
    requires keys != {}
    ensures k in keys && forall j :: j in keys ==> k <= j
    decreases |keys|
  {
    if forall x :: x !in keys { assert false; }
    var x :| x in keys;
    if keys - {x} == {} {
      k := x;
      forall j | j in keys ensures k <= j {
        assert j !in keys - {x};
      }
    } else {
      var m := Minimum(keys - {x});
      k := if x < m then x else m;
      forall j | j in keys ensures k <= j {
        if j != x { assert j in keys - {x}; }
      }
    }
  }

  lemma MinimumExists(keys: set<int>)
    requires keys != {}
    ensures exists k :: k in keys && forall j :: j in keys ==> k <= j
  {
    var k := Minimum(keys);
  }

  /** The least key, the first one `Object.values` visits. */
  function MinKey(keys: set<int>): (k: int)
    requires keys != {}
    ensures k in keys && forall j :: j in keys ==> k <= j
  {
    MinimumExists(keys);
    var k :| k in keys && forall j :: j in keys ==> k <= j;
    k
  }

  /** `totalIssues`: the issue counts of the loaded bundles added up, visiting
      the keys in ascending order as `Object.values` does for numeric keys. */
  function TotalIssues(data: map<int, RepoDetails>): (t: nat)
    ensures data == map[] ==> t == 0
    decreases |data.Keys|
  {
    if data == map[] then 0
    else
      var k := MinKey(data.Keys);
      assert (data - {k}).Keys == data.Keys - {k};
      |data[k].issues| + TotalIssues(data - {k})
  }

  /** The total does not depend on the visiting order: any bundle can be
      taken out first. */
  lemma {:induction false} TotalIssuesRemove(data: map<int, RepoDetails>, k: int)
    requires k in data
    ensures TotalIssues(data) == |data[k].issues| + TotalIssues(data - {k})
    decreases |data.Keys|
  {
    var m := MinKey(data.Keys);
    if k != m {
      var rest := data - {m} - {k};
      assert (data - {m}).Keys == data.Keys - {m};
      assert (data - {k}).Keys == data.Keys - {k};
      TotalIssuesRemove(data - {m}, k);
      TotalIssuesRemove(data - {k}, m);
      assert data - {m} - {k} == data - {k} - {m};
    }
  }

  /** Storing a bundle under a new key adds its issue count to the total. */
  lemma TotalIssuesInsert(data: map<int, RepoDetails>, k: int, d: RepoDetails)
    requires k !in data
    ensures TotalIssues(data[k := d]) == |d.issues| + TotalIssues(data)
  {
    TotalIssuesRemove(data[k := d], k);
    assert data[k := d] - {k} == data;
  }

  // ---------------------------------------------------------- the loading

  /** The record holds exactly the bundles of `ids`, each as the service
      returns it for its key. */
  ghost predicate LoadedFor(data: map<int, RepoDetails>, ids: seq<int>) {
    && (forall id :: id in data <==> id in ids)
    && (forall id :: id in data ==> data[id] == MockApi.FetchRepoDetails(id))
  }

  /** `loadData`'s loop: fetch each watched id in list order and store its
      bundle under its id; a repeated id is fetched again and overwrites.
      `fetched` lists the ids in the order they were awaited. */
  method LoadData(ids: seq<int>) returns (data: map<int, RepoDetails>, ghost fetched: seq<int>)
    ensures data.Keys == set id | id in ids
    ensures forall id :: id in data ==> data[id] == MockApi.FetchRepoDetails(id)
    ensures fetched == ids
  {
    data, fetched := map[], [];
    var i := 0;
    while i < |ids|
      invariant 0 <= i <= |ids|
      invariant fetched == ids[..i]
      invariant data.Keys == set id | id in ids[..i]
      invariant forall id :: id in data ==> data[id] == MockApi.FetchRepoDetails(id)
    {
      assert ids[..i + 1] == ids[..i] + [ids[i]];
      data := data[ids[i] := MockApi.FetchRepoDetails(ids[i])];
      fetched := fetched + [ids[i]];
      i := i + 1;
    }
    assert ids[..|ids|] == ids;
  }

  /** Every repository has one issue except 103, which has two. */
  ghost predicate MockIssueCounts(data: map<int, RepoDetails>) {
    forall id :: id in data ==> |data[id].issues| == if id == 103 then 2 else 1
  }

  /** The service's bundles have those issue counts. */
  lemma LoadedIssueCounts(data: map<int, RepoDetails>)
    requires forall id :: id in data ==> data[id] == MockApi.FetchRepoDetails(id)
    ensures MockIssueCounts(data)
  {
    forall id | id in data ensures |data[id].issues| == if id == 103 then 2 else 1 {
      assert |MockApi.FetchRepoDetails(id).issues| == if id == 103 then 2 else 1;
    }
  }

  /** With those counts the total is one per repository plus one for 103. */
  lemma {:induction false} TotalOfLoaded(data: map<int, RepoDetails>)
    requires MockIssueCounts(data)
    ensures TotalIssues(data) == |data.Keys| + (if 103 in data then 1 else 0)
    decreases |data.Keys|
  {
    if data != map[] {
      var k := MinKey(data.Keys);
      assert (data - {k}).Keys == data.Keys - {k};
      TotalOfLoaded(data - {k});
    }
  }

  // ------------------------------------------------------------ the cards

  /** A card's lower half: the loading skeleton or the two counts. */
  datatype CardBody = Skeleton | Stats(issues: nat, prs: nat)

  /** A card: its repository id (the target of its navigation buttons), the
      repository and the body. */
  datatype Card = Card(id: int, repo: Repo, body: CardBody)

  datatype Grid = NoSignals | Cards(cards: seq<Card>)

  /** The card of one watched id, if it has a repository record: the skeleton
      while loading or while its bundle is missing, the counts otherwise. */
  function CardFor(id: int, data: map<int, RepoDetails>, loading: bool): (c: Option<Card>)
    ensures c.None? <==> MockApi.GetRepoById(id).None?
    ensures c.Some? ==> c.value.id == id && c.value.repo == MockApi.GetRepoById(id).value
    ensures c.Some? ==> (c.value.body.Skeleton? <==> loading || id !in data)
    ensures c.Some? && c.value.body.Stats? ==>
      c.value.body.issues == |data[id].issues| && c.value.body.prs == |data[id].prs|
  {
    match MockApi.GetRepoById(id)
    case None => None
    case Some(repo) =>
      Some(Card(id, repo, if loading || id !in data then Skeleton
                          else Stats(|data[id].issues|, |data[id].prs|)))
  }

  /** The card lookup for one state of the view, as a function of the id. */
  function CardOf(data: map<int, RepoDetails>, loading: bool): int -> Option<Card> {
    id => CardFor(id, data, loading)
  }

  /** One card per watched id with a repository record, in watch order. */
  function CardsFor(ids: seq<int>, data: map<int, RepoDetails>, loading: bool): (cards: seq<Card>)
    ensures |cards| <= |ids|
    ensures forall c :: c in cards ==> c.id in ids && CardFor(c.id, data, loading) == Some(c)
    ensures forall id :: id in ids && MockApi.GetRepoById(id).Some? ==> exists c :: c in cards && c.id == id
  {
    Seqs.FilterMap(ids, CardOf(data, loading))
  }

  /** One id gives its card, or nothing when it has no repository record. */
  lemma CardsForSingle(id: int, data: map<int, RepoDetails>, loading: bool)
    ensures CardsFor([id], data, loading) ==
      if CardFor(id, data, loading).Some? then [CardFor(id, data, loading).value] else []
  {
    Seqs.FilterMapSingle(id, CardOf(data, loading));
  }

  /** The cards are built id by id: the cards of a concatenation are those of
      each part, in order. */
  lemma CardsForAppend(a: seq<int>, b: seq<int>, data: map<int, RepoDetails>, loading: bool)
    ensures CardsFor(a + b, data, loading) == CardsFor(a, data, loading) + CardsFor(b, data, loading)
  {
    Seqs.FilterMapAppend(a, b, CardOf(data, loading));
  }

  /** The grid: a message for an empty watchlist, the cards otherwise. */
  function RenderGrid(ids: seq<int>, data: map<int, RepoDetails>, loading: bool): (g: Grid)
    ensures g.NoSignals? <==> ids == []
    ensures g.Cards? ==> g.cards == CardsFor(ids, data, loading)
  {
    if ids == [] then NoSignals else Cards(CardsFor(ids, data, loading))
  }

  /** What the dashboard shows. */
  datatype Page = Page(totalIssues: nat, grid: Grid)

  class View {
    var watchedRepoIds: seq<int>
    var repoData: map<int, RepoDetails>
    var loading: bool
    /** Every value `loading` has taken, oldest first. */
    ghost var loadingTrace: seq<bool>

    /** Every stored bundle is the service's bundle for its key. */
    ghost predicate Valid() reads this {
      && (forall id :: id in repoData ==> repoData[id] == MockApi.FetchRepoDetails(id))
      && |loadingTrace| >= 1 && loadingTrace[|loadingTrace| - 1] == loading
    }

    /** Mounting: an empty record and the loading flag up, before the load
        effect runs. */
    constructor (watchedRepoIds: seq<int>)
      ensures Valid()
      ensures this.watchedRepoIds == watchedRepoIds && repoData == map[] && loading
      ensures loadingTrace == [true]
    {
      this.watchedRepoIds := watchedRepoIds;
      repoData := map[];
      loading := true;
      loadingTrace := [true];
    }

    /** The load effect. A non-empty watchlist raises the flag, loads every
        bundle and stores the record before lowering the flag. An empty
        watchlist only lowers the flag: the record of the previous load is
        kept. */
    method Refresh()
      requires Valid()
      modifies this`repoData, this`loading, this`loadingTrace
      ensures Valid() && !loading
      ensures watchedRepoIds != [] ==>
        LoadedFor(repoData, watchedRepoIds) && loadingTrace == old(loadingTrace) + [true, false]
      ensures watchedRepoIds == [] ==>
        repoData == old(repoData) && loadingTrace == old(loadingTrace) + [false]
    {
      if |watchedRepoIds| > 0 {
        loading := true;
        loadingTrace := loadingTrace + [true];
        var data, _ := LoadData(watchedRepoIds);
        repoData := data;
        loading := false;
        loadingTrace := loadingTrace + [false];
      } else {
        loading := false;
        loadingTrace := loadingTrace + [false];
      }
    }

    /** A new watchlist from the owner reruns the load effect. */
    method SetWatched(ids: seq<int>)
      requires Valid()
      modifies this`watchedRepoIds, this`repoData, this`loading, this`loadingTrace
      ensures Valid() && !loading && watchedRepoIds == ids
      ensures ids != [] ==> LoadedFor(repoData, ids)
      ensures ids == [] ==> repoData == old(repoData)
    {
      watchedRepoIds := ids;
      Refresh();
    }

    function Render(): (p: Page)
      reads this
      ensures p.totalIssues == TotalIssues(repoData)
      ensures p.grid == RenderGrid(watchedRepoIds, repoData, loading)
    {
      Page(TotalIssues(repoData), RenderGrid(watchedRepoIds, repoData, loading))
    }
  }

  /** With the service's issue counts and the keys of `ids`, the total counts
      one issue per distinct id and one more when 103 is among them. */
  lemma CountedTotal(data: map<int, RepoDetails>, ids: seq<int>)
    requires MockIssueCounts(data)
    requires forall id :: id in data <==> id in ids
    ensures TotalIssues(data) == |set id | id in ids| + (if 103 in ids then 1 else 0)
  {
    TotalOfLoaded(data);
    assert data.Keys == set id | id in ids by {
      forall id ensures id in data.Keys <==> id in ids { }
    }
  }

  /** Once loaded, the total counts one issue per distinct watched id and one
      more when 103 is watched. */
  lemma LoadedTotal(data: map<int, RepoDetails>, ids: seq<int>)
    requires LoadedFor(data, ids)
    ensures TotalIssues(data) == |set id | id in ids| + (if 103 in ids then 1 else 0)
  {
    LoadedIssueCounts(data);
    CountedTotal(data, ids);
  }

  /** The record of 101 and 103 totals three issues. */
  lemma PairTotal(data: map<int, RepoDetails>)
    requires MockIssueCounts(data)
    requires forall id :: id in data <==> id in [101, 103]
    ensures TotalIssues(data) == 3
  {
    CountedTotal(data, [101, 103]);
    assert (set id | id in [101, 103]) == {101, 103};
  }

  /** Watching 101 and 103 shows three issues; emptying the watchlist then
      shows the no-signals message but still the total of the earlier load. */
  method EmptyingScenario() returns (before: Page, after: Page)
    ensures before.totalIssues == 3 && before.grid.Cards?
    ensures after.totalIssues == 3 && after.grid == NoSignals
  {
    var view := new View([101, 103]);
    view.Refresh();
    LoadedIssueCounts(view.repoData);
    PairTotal(view.repoData);
    before := view.Render();
    view.SetWatched([]);
    after := view.Render();
  }
}
