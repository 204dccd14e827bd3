/** The records shared by the services and the views. */
module Types {
  import opened Wrappers

  datatype IssueStatus = IssueOpen | IssueClosed

  datatype PrStatus = PrOpen | PrMerged | PrClosed

  /** A repository; `description` is optional. */
  datatype Repo = Repo(id: int, name: string, isPrivate: bool, description: Option<string>)

  datatype Issue = Issue(id: int, title: string, status: IssueStatus, body: string)

  datatype PR = PR(id: int, title: string, author: string, status: PrStatus)

  /** The documentation files of a repository as (name, content) pairs in the
      order `Object.keys` enumerates them; a record has no repeated key. */
  type Files = seq<(string, string)>

  datatype RepoDetails = RepoDetails(issues: seq<Issue>, prs: seq<PR>, files: Files)

  datatype AgentResponse = AgentResponse(sessionId: string, status: string, plan: seq<string>)

  /** The top-level views the shell can show. */
  datatype ViewState = ViewDashboard | ViewProjects | ViewKnowledge | ViewAgent | ViewSettings

  function FileNames(files: Files): (names: seq<string>)
    ensures |names| == |files|
    ensures forall i :: 0 <= i < |files| ==> names[i] == files[i].0
  {
    if files == [] then [] else [files[0].0] + FileNames(files[1..])
  }

  /** The pairs have pairwise distinct names, as the keys of a record do. */
  predicate UniqueNames(files: Files) {
    forall i, j :: 0 <= i < j < |files| ==> files[i].0 != files[j].0
  }

  /** `files[name]`: the content stored under `name`, `undefined` when absent. */
  function Lookup(files: Files, name: string): (r: Option<string>)
    ensures r.Some? <==> name in FileNames(files)
    ensures r.Some? ==> (name, r.value) in files
  {
    if files == [] then None
    else if files[0].0 == name then Some(files[0].1)
    else Lookup(files[1..], name)
  }

  function IssueIds(issues: seq<Issue>): (ids: seq<int>)
    ensures |ids| == |issues|
    ensures forall i :: 0 <= i < |issues| ==> ids[i] == issues[i].id
  {
    if issues == [] then [] else [issues[0].id] + IssueIds(issues[1..])
  }

  function PrIds(prs: seq<PR>): (ids: seq<int>)
    ensures |ids| == |prs|
    ensures forall i :: 0 <= i < |prs| ==> ids[i] == prs[i].id
  {
    if prs == [] then [] else [prs[0].id] + PrIds(prs[1..])
  }
}
