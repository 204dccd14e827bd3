/** The watchlist dialog: a debounced name search over the repositories, a
    result list whose rows toggle the watchlist, and a footer with the number
    of watched repositories. */
module WatchlistManager {
  import opened Wrappers
  import opened Types
  import MockApi

  /** The search runs only for queries longer than one character. */
  predicate SearchesFor(query: string) {
    |query| > 1
  }

  const NoMatchMessage := "No repositories found matching your query."
  const PromptMessage := "Type to search your repository index."

  /** A result row: the repository, whether it is watched, and the id its
      toggle button hands to the owner. */
  datatype Row = Row(repo: Repo, watched: bool, toggleId: int)

  datatype ListView = Spinner | Rows(rows: seq<Row>) | EmptyMessage(text: string)

  /** The list area: the spinner while loading, else one row per result in
      result order, else a message that depends only on whether the query is
      empty. */
  function ListContent(isLoading: bool, results: seq<Repo>, query: string, watched: seq<int>): (v: ListView)
    ensures v.Spinner? <==> isLoading
    ensures !isLoading && |results| > 0 ==>
      v.Rows? && |v.rows| == |results| &&
      forall i :: 0 <= i < |results| ==>
        v.rows[i].repo == results[i] && v.rows[i].toggleId == results[i].id &&
        (v.rows[i].watched <==> results[i].id in watched)
    ensures !isLoading && results == [] ==>
      v.EmptyMessage? && (v.text == NoMatchMessage <==> query != "")
  {
    if isLoading then Spinner
    else if |results| > 0 then
      Rows(seq(|results|, i requires 0 <= i < |results| =>
        Row(results[i], results[i].id in watched, results[i].id)))
    else if query != "" then EmptyMessage(NoMatchMessage)
    else EmptyMessage(PromptMessage)
  }

  /** The open dialog: the list area and the footer count. */
  datatype Dialog = Dialog(list: ListView, watchedCount: nat)

  class Manager {
    var query: string
    var results: seq<Repo>
    var isLoading: bool
    /** Every value `isLoading` has taken, oldest first. */
    ghost var loadingTrace: seq<bool>
    /** The queries sent to the search service, oldest first. */
    ghost var searched: seq<string>

    /** At rest nothing is loading, and no two results share an id. */
    ghost predicate Valid() reads this {
      && !isLoading
      && |loadingTrace| >= 1 && loadingTrace[|loadingTrace| - 1] == isLoading
      && MockApi.UniqueIds(results)
    }

    constructor ()
      ensures Valid()
      ensures query == "" && results == [] && !isLoading
      ensures loadingTrace == [false] && searched == []
    {
      query := "";
      results := [];
      isLoading := false;
      loadingTrace := [false];
      searched := [];
    }

    /** Typing into the search field; the pending timer is replaced. */
    method SetQuery(q: string)
      modifies this`query
      ensures query == q
    {
      query := q;
    }

    /** The debounce timer fires for the current query. A query of at most
        one character empties the results without a search; a longer one
        shows the spinner, searches and stores what the search found. */
    method OnTimerFired()
      requires Valid()
      modifies this`results, this`isLoading, this`loadingTrace, this`searched
      ensures Valid()
      ensures !SearchesFor(query) ==>
        results == [] && searched == old(searched) && loadingTrace == old(loadingTrace)
      ensures SearchesFor(query) ==>
        && results == MockApi.SearchGithubRepos(query)
        && searched == old(searched) + [query]
        && loadingTrace == old(loadingTrace) + [true, false]
    {
      if SearchesFor(query) {
        isLoading := true;
        loadingTrace := loadingTrace + [true];
        searched := searched + [query];
        var data := MockApi.SearchGithubRepos(query);
        results := data;
        isLoading := false;
        loadingTrace := loadingTrace + [false];
      } else {
        results := [];
      }
    }

    /** A closed dialog renders nothing; an open one shows the list area and
        the number of watched ids. */
    function Render(isOpen: bool, watched: seq<int>): (d: Option<Dialog>)
      reads this
      ensures d.None? <==> !isOpen
      ensures d.Some? ==>
        d.value.list == ListContent(isLoading, results, query, watched) &&
        d.value.watchedCount == |watched|
    {
      if isOpen then Some(Dialog(ListContent(isLoading, results, query, watched), |watched|)) else None
    }
  }

  /** A two-character query searches; shortening it to one character clears
      the results again without a second search. */
  method ShortQueryScenario(q: string) returns (longResults: seq<Repo>, shortResults: seq<Repo>)
    requires |q| == 2
    ensures longResults == MockApi.SearchGithubRepos(q)
    ensures shortResults == []
  {
    var m := new Manager();
    m.SetQuery(q);
    m.OnTimerFired();
    longResults := m.results;
    m.SetQuery(q[..1]);
    m.OnTimerFired();
    shortResults := m.results;
    assert m.searched == [q];
  }
}
