/** The in-memory data service the views call: a fixed list of six
    repositories, a name search over it, canned detail bundles and a canned
    agent plan. The artificial delays are not part of the model. */
module MockApi {
  import opened Wrappers
  import opened Types
  import Js
  import Seqs

  const AllUserRepos: seq<Repo> := [
    Repo(101, "legacy-project-1", true, None),
    Repo(102, "focus-hub", true, Some("Command Center")),
    Repo(103, "auth-service", false, None),
    Repo(104, "design-system", false, Some("Shared UI Lib")),
    Repo(105, "analytics-worker", true, None),
    Repo(106, "mobile-ios", true, None)
  ]

  predicate UniqueIds(repos: seq<Repo>) {
    forall i, j :: 0 <= i < j < |repos| ==> repos[i].id != repos[j].id
  }

  lemma AllUserReposUniqueIds()
    ensures UniqueIds(AllUserRepos)
  {
  }

  /** A subsequence of a list with unique ids has unique ids. */
  lemma {:induction false} SubsequenceUniqueIds(a: seq<Repo>, b: seq<Repo>)
    requires Seqs.IsSubsequence(a, b) && UniqueIds(b)
    ensures UniqueIds(a)
    decreases |b|
  {
    if a != [] {
      assert UniqueIds(b[1..]) by {
        forall i, j | 0 <= i < j < |b[1..]| ensures b[1..][i].id != b[1..][j].id {
          assert b[1..][i] == b[i + 1] && b[1..][j] == b[j + 1];
        }
      }
      if a[0] == b[0] {
        SubsequenceUniqueIds(a[1..], b[1..]);
        Seqs.SubsequenceElements(a[1..], b[1..]);
        forall i, j | 0 <= i < j < |a| ensures a[i].id != a[j].id {
          if i == 0 {
            assert a[j] == a[1..][j - 1];
            assert a[j] in b[1..];
            var k :| 0 <= k < |b[1..]| && b[1..][k] == a[j];
            assert b[k + 1] == a[j];
          } else {
            assert a[i] == a[1..][i - 1] && a[j] == a[1..][j - 1];
          }
        }
      } else {
        SubsequenceUniqueIds(a, b[1..]);
      }
    }
  }

  /** `r.name.toLowerCase().includes(query.toLowerCase())`. */
  predicate NameMatches(r: Repo, query: string) {
    Js.Includes(Js.ToLower(r.name), Js.ToLower(query))
  }

  /** `repos.filter(r => NameMatches(r, query))`. */
  function FilterByName(repos: seq<Repo>, query: string): (found: seq<Repo>)
    ensures forall r :: r in found <==> r in repos && NameMatches(r, query)
    ensures Seqs.IsSubsequence(found, repos)
  {
    if repos == [] then []
    else if NameMatches(repos[0], query) then [repos[0]] + FilterByName(repos[1..], query)
    else FilterByName(repos[1..], query)
  }

  /** `searchGithubRepos(query)`: nothing for the empty query; otherwise the
      repositories whose lower-cased name contains the lower-cased query, in
      list order. */
  function SearchGithubRepos(query: string): (found: seq<Repo>)
    ensures query == "" ==> found == []
    ensures query != "" ==> forall r :: r in found <==> r in AllUserRepos && NameMatches(r, query)
    ensures Seqs.IsSubsequence(found, AllUserRepos)
    ensures |found| <= |AllUserRepos| && UniqueIds(found)
  {
    if query == "" then []
    else
      var found := FilterByName(AllUserRepos, query);
      AllUserReposUniqueIds();
      SubsequenceUniqueIds(found, AllUserRepos);
      SubsequenceLength(found, AllUserRepos);
      found
  }

  lemma {:induction false} SubsequenceLength<T>(a: seq<T>, b: seq<T>)
    requires Seqs.IsSubsequence(a, b)
    ensures |a| <= |b|
    decreases |b|
  {
    if a != [] {
      if a[0] == b[0] { SubsequenceLength(a[1..], b[1..]); } else { SubsequenceLength(a, b[1..]); }
    }
  }

  /** The search ignores the case of the query. */
  lemma SearchIgnoresQueryCase(query: string)
    ensures SearchGithubRepos(query) == SearchGithubRepos(Js.ToLower(query))
  {
    Js.ToLowerIdempotent(query);
    FilterByNameLowered(AllUserRepos, query);
  }

  lemma {:induction false} FilterByNameLowered(repos: seq<Repo>, query: string)
    requires Js.ToLower(Js.ToLower(query)) == Js.ToLower(query)
    ensures FilterByName(repos, query) == FilterByName(repos, Js.ToLower(query))
  {
    if repos != [] {
      FilterByNameLowered(repos[1..], query);
    }
  }

  // ------------------------------------------------------------- details

  const AuthIssues: seq<Issue> := [
    Issue(201, "JWT token expiration bug", IssueOpen, "Tokens are not refreshing correctly on 401."),
    Issue(202, "Add 2FA endpoints", IssueOpen, "Need to implement TOTP verification.")
  ]

  const AuthReadme := "# Auth Service\n\nHandles user authentication and session management."
  const AuthApiDoc := "# Endpoints\n\n- POST /login\n- POST /refresh"
  const DefaultReadme := "# Focus Hub\n\nThe ultimate developer dashboard. Only syncs what matters."
  const DefaultAgentsDoc := "# AI Configuration\n\nJules is enabled for this repo.\n\n## Capabilities\n- PR Reviews\n- Code Generation"

  /** `fetchRepoDetails(repoId)`: repository 103 has its own bundle, every other
      identifier gets the same default bundle. */
  function FetchRepoDetails(repoId: int): (d: RepoDetails)
    ensures repoId == 103 ==>
      IssueIds(d.issues) == [201, 202] && PrIds(d.prs) == [55] &&
      FileNames(d.files) == ["README.md", "API.md"]
    ensures repoId != 103 ==>
      IssueIds(d.issues) == [1] && PrIds(d.prs) == [50] &&
      FileNames(d.files) == ["README.md", "AGENTS.md"]
    ensures UniqueNames(d.files) && |d.files| > 0 && d.files[0].0 == "README.md"
  {
    if repoId == 103 then
      RepoDetails(
        AuthIssues,
        [PR(55, "Jules: Refactor Middleware", "jules-ai", PrOpen)],
        [("README.md", AuthReadme), ("API.md", AuthApiDoc)])
    else
      RepoDetails(
        [Issue(1, "Fix login bug", IssueOpen, "Login fails on iOS...")],
        [PR(50, "Jules: Refactored Auth", "jules-ai", PrOpen)],
        [("README.md", DefaultReadme), ("AGENTS.md", DefaultAgentsDoc)])
  }

  /** Every identifier other than 103 gets one and the same bundle. */
  lemma FetchRepoDetailsDefault(a: int, b: int)
    requires a != 103 && b != 103
    ensures FetchRepoDetails(a) == FetchRepoDetails(b)
  {
  }

  // --------------------------------------------------------------- agent

  const FixedPlan: seq<string> :=
    ["Analyze Issue Context", "Read Related Files", "Generate Implementation Plan", "Draft Pull Request"]

  /** `dispatchJulesAgent(issueId, instructions)`; `now` is the clock reading
      `Date.now()` that names the session. */
  function DispatchJulesAgent(issueId: int, instructions: string, now: nat): (r: AgentResponse)
    ensures r.status == "RUNNING" && r.plan == FixedPlan
    ensures Js.StartsWith(r.sessionId, "sess_")
  {
    AgentResponse("sess_" + Js.NatToString(now), "RUNNING", FixedPlan)
  }

  /** Status and plan depend on neither the issue nor the instructions. */
  lemma DispatchIgnoresArguments(i1: int, s1: string, i2: int, s2: string, now: nat)
    ensures DispatchJulesAgent(i1, s1, now) == DispatchJulesAgent(i2, s2, now)
  {
  }

  // -------------------------------------------------------------- lookup

  /** `repos.find(r => r.id === id)`. */
  function FindById(repos: seq<Repo>, id: int): (r: Option<Repo>)
    ensures r.Some? ==> r.value in repos && r.value.id == id
    ensures r.None? <==> forall x :: x in repos ==> x.id != id
  {
    if repos == [] then None
    else if repos[0].id == id then Some(repos[0])
    else FindById(repos[1..], id)
  }

  /** `find` answers the first repository carrying the id. */
  lemma {:induction false} FindByIdFirst(repos: seq<Repo>, id: int, k: nat)
    requires k < |repos| && repos[k].id == id
    requires forall j :: 0 <= j < k ==> repos[j].id != id
    ensures FindById(repos, id) == Some(repos[k])
    decreases k
  {
    if k > 0 {
      assert repos[0].id != id;
      assert forall j :: 0 <= j < k - 1 ==> repos[1..][j] == repos[j + 1];
      FindByIdFirst(repos[1..], id, k - 1);
    }
  }

  /** `getRepoById(id)`: the listed repository with that id, `undefined` when
      there is none. */
  function GetRepoById(id: int): (r: Option<Repo>)
    ensures r.Some? ==> r.value in AllUserRepos && r.value.id == id
    ensures r.None? <==> forall x :: x in AllUserRepos ==> x.id != id
  {
    FindById(AllUserRepos, id)
  }

  /** The listed repository with an id is unique. */
  lemma GetRepoByIdUnique(id: int, x: Repo)
    requires x in AllUserRepos && x.id == id
    ensures GetRepoById(id) == Some(x)
  {
    AllUserReposUniqueIds();
  }

  /** `ids.map(getRepoById)` with the unknown ids skipped, as the views render
      their repository lists. */
  function KnownRepos(ids: seq<int>): (repos: seq<Repo>)
    ensures |repos| <= |ids|
    ensures forall r :: r in repos ==> r in AllUserRepos && r.id in ids
    ensures forall id :: id in ids && GetRepoById(id).Some? ==> GetRepoById(id).value in repos
  {
    Seqs.FilterMap(ids, GetRepoById)
  }

  /** One id gives its repository, or nothing when it has no record. */
  lemma KnownReposSingle(id: int)
    ensures KnownRepos([id]) == if GetRepoById(id).Some? then [GetRepoById(id).value] else []
  {
    Seqs.FilterMapSingle(id, GetRepoById);
  }

  /** The list is built id by id: the repositories of a concatenation are
      those of each part, in order. */
  lemma KnownReposAppend(a: seq<int>, b: seq<int>)
    ensures KnownRepos(a + b) == KnownRepos(a) + KnownRepos(b)
  {
    Seqs.FilterMapAppend(a, b, GetRepoById);
  }
}
