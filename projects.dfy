/** The projects view: repository tabs, the pull requests and issues of the
    selected repository, and the agent panel that seeds instructions from an
    issue and runs the dispatch cycle `idle -> running -> done`. */
module Projects {
  import opened Wrappers
  import opened Types
  import Js
  import MockApi

  datatype AgentStatus = Idle | Running | Done

  const SeedPrefix := "Fix issue #"

  /** The editor text an issue seeds:
      `Fix issue #<id>: <title>`, a blank line, then `Context: <body>`; the
      body closes the text after its label. */
  function SeedInstructions(issue: Issue): (s: string)
    ensures Js.StartsWith(s, SeedPrefix)
    ensures |s| >= 11 + |issue.body| && s[|s| - |issue.body| - 11..] == "\n\nContext: " + issue.body
  {
    SeedPrefix + Js.NumberToString(issue.id) + ": " + issue.title + "\n\nContext: " + issue.body
  }

  /** Reads a `${n}` rendering at the head of a text back into the number:
      an optional minus, then the longest run of digits. */
  function ReadNumber(s: string): int {
    if s != [] && s[0] == '-' then 0 - Js.ParseDigits(Js.TakeDigits(s[1..]))
    else Js.ParseDigits(Js.TakeDigits(s))
  }

  /** A rendered number followed by a non-digit reads back as the number. */
  lemma ReadNumberToString(n: int, rest: string)
    requires rest != [] && !Js.IsDigit(rest[0])
    ensures ReadNumber(Js.NumberToString(n) + rest) == n
  {
    var m := if n < 0 then -n else n;
    var digits := Js.NatToString(m);
    Js.ParseNatToString(m);
    Js.TakeDigitsOf(digits, rest);
    if n < 0 {
      assert Js.NumberToString(n) + rest == "-" + (digits + rest);
      assert ("-" + (digits + rest))[1..] == digits + rest;
    } else {
      assert (digits + rest)[0] == digits[0];
    }
  }

  /** The seeded text names its issue: the number after `#` is the id. */
  lemma SeedNamesIssue(issue: Issue)
    ensures ReadNumber(SeedInstructions(issue)[|SeedPrefix|..]) == issue.id
  {
    var rest := ": " + issue.title + "\n\nContext: " + issue.body;
    assert SeedInstructions(issue)[|SeedPrefix|..] == Js.NumberToString(issue.id) + rest;
    ReadNumberToString(issue.id, rest);
  }

  /** A repository tab: the repository and whether it is the selected one. */
  datatype Tab = Tab(repo: Repo, selected: bool)

  /** The tabs row: one tab per watched id with a repository record, in
      watch order; a tab is selected exactly when its id is the selection. */
  function Tabs(watched: seq<int>, selected: Option<int>): (tabs: seq<Tab>)
    ensures |tabs| == |MockApi.KnownRepos(watched)|
    ensures forall i :: 0 <= i < |tabs| ==>
      tabs[i].repo == MockApi.KnownRepos(watched)[i] &&
      (tabs[i].selected <==> selected == Some(tabs[i].repo.id))
  {
    var repos := MockApi.KnownRepos(watched);
    seq(|repos|, i requires 0 <= i < |repos| => Tab(repos[i], selected == Some(repos[i].id)))
  }

  /** The right-hand panel. */
  datatype Panel =
    | TicketPlaceholder
    | Working(issue: Issue)                                  // the spinner replaces the editor
    | Editor(issue: Issue, text: string, interactive: bool, plan: seq<string>)

  /** What the view shows. */
  datatype Page =
    | NoRepository
    | Workspace(tabs: seq<Tab>, prs: seq<PR>, issues: seq<Issue>, panel: Panel)

  /** The panel for an issue, a status, the editor text and the plan: the
      spinner while running; otherwise the editor, interactive only while
      idle, with the executed plan listed once done. */
  function AgentPanel(activeIssue: Option<Issue>, status: AgentStatus, text: string,
                      plan: seq<string>): (p: Panel)
    ensures activeIssue.None? <==> p == TicketPlaceholder
    ensures p.Working? <==> activeIssue.Some? && status == Running
    ensures p.Editor? ==> p.text == text && (p.interactive <==> status == Idle)
    ensures p.Editor? ==> p.issue == activeIssue.value && p.plan == (if status == Done then plan else [])
  {
    match activeIssue
    case None => TicketPlaceholder
    case Some(issue) =>
      if status == Running then Working(issue)
      else Editor(issue, text, status == Idle, if status == Done then plan else [])
  }

  /** The view's state. At rest the agent is never `running`; an idle agent
      has no plan and a finished one holds the plan the service returned. */
  class ProjectsView {
    var watchedRepoIds: seq<int>
    var selectedRepoId: Option<int>
    var details: Option<RepoDetails>
    var activeIssue: Option<Issue>
    var agentStatus: AgentStatus
    var agentPlan: seq<string>
    var instructions: string
    /** Every status the agent has taken, oldest first. */
    ghost var statusTrace: seq<AgentStatus>
    /** The (issue id, instructions) pairs sent to the agent service. */
    ghost var dispatched: seq<(int, string)>

    ghost predicate Valid() reads this {
      && |statusTrace| >= 1 && statusTrace[|statusTrace| - 1] == agentStatus
      && agentStatus != Running
      && (agentStatus == Idle ==> agentPlan == [])
      && (agentStatus == Done ==> agentPlan == MockApi.FixedPlan)
    }

    /** Mounting: the selection is `initialRepoId` if truthy, else the first
        watched id if truthy, else none; the agent is idle with no plan. */
    constructor (watchedRepoIds: seq<int>, initialRepoId: Option<int>)
      ensures Valid()
      ensures this.watchedRepoIds == watchedRepoIds
      ensures selectedRepoId == Js.FirstTruthy(initialRepoId, Js.Head(watchedRepoIds))
      ensures details == None && activeIssue == None
      ensures agentStatus == Idle && agentPlan == [] && instructions == ""
      ensures statusTrace == [Idle] && dispatched == []
    {
      this.watchedRepoIds := watchedRepoIds;
      selectedRepoId := Js.FirstTruthy(initialRepoId, Js.Head(watchedRepoIds));
      details := None;
      activeIssue := None;
      agentStatus := Idle;
      agentPlan := [];
      instructions := "";
      statusTrace := [Idle];
      dispatched := [];
    }

    /** A new watchlist prop while mounted: the tabs follow it, but no effect
        depends on it, so the selection, the bundle and the agent are kept. */
    method SetWatched(ids: seq<int>)
      modifies this`watchedRepoIds
      ensures watchedRepoIds == ids
    {
      watchedRepoIds := ids;
    }

    /** The fetch effect: a truthy selection loads its bundle. */
    method LoadSelected()
      modifies this`details
      ensures old(selectedRepoId).Some? && old(selectedRepoId).value != 0 ==>
        details == Some(MockApi.FetchRepoDetails(selectedRepoId.value))
      ensures old(selectedRepoId).None? || old(selectedRepoId).value == 0 ==> details == old(details)
    {
      if selectedRepoId.Some? && selectedRepoId.value != 0 {
        details := Some(MockApi.FetchRepoDetails(selectedRepoId.value));
      }
    }

    /** A click on a repository tab: it becomes the selection and the active
        issue is cleared; the bundle is fetched again when the selection
        changed. The agent's status and plan are left as they were. */
    method SelectRepoTab(id: int)
      requires Valid()
      modifies this`selectedRepoId, this`activeIssue, this`details
      ensures Valid()
      ensures selectedRepoId == Some(id) && activeIssue == None
      ensures old(selectedRepoId) != Some(id) && id != 0 ==>
        details == Some(MockApi.FetchRepoDetails(id))
      ensures old(selectedRepoId) == Some(id) ==> details == old(details)
      ensures id == 0 ==> details == old(details)
    {
      var changed := selectedRepoId != Some(id);
      selectedRepoId := Some(id);
      activeIssue := None;
      if changed {
        LoadSelected();
      }
    }

    /** The seeding effect, run when the active issue changes to an issue:
        fresh instructions overwrite any edit, the agent goes back to idle
        and the plan is emptied. */
    method Seed()
      requires Valid() && activeIssue.Some?
      modifies this`instructions, this`agentStatus, this`agentPlan, this`statusTrace
      ensures Valid()
      ensures instructions == SeedInstructions(activeIssue.value)
      ensures agentStatus == Idle && agentPlan == []
      ensures statusTrace == old(statusTrace) + [Idle]
    {
      instructions := SeedInstructions(activeIssue.value);
      agentStatus := Idle;
      agentPlan := [];
      statusTrace := statusTrace + [Idle];
    }

    /** A click on an issue of the loaded bundle. Choosing the issue that is
        already active changes nothing; any other issue is seeded. */
    method SelectIssue(issue: Issue)
      requires Valid() && details.Some? && issue in details.value.issues
      modifies this`activeIssue, this`instructions, this`agentStatus, this`agentPlan, this`statusTrace
      ensures Valid() && activeIssue == Some(issue)
      ensures old(activeIssue) == Some(issue) ==>
        instructions == old(instructions) && agentStatus == old(agentStatus) &&
        agentPlan == old(agentPlan) && statusTrace == old(statusTrace)
      ensures old(activeIssue) != Some(issue) ==>
        instructions == SeedInstructions(issue) && agentStatus == Idle && agentPlan == [] &&
        statusTrace == old(statusTrace) + [Idle]
    {
      var changed := activeIssue != Some(issue);
      activeIssue := Some(issue);
      if changed {
        Seed();
      }
    }

    /** The close button of the slide-over panel. */
    method CloseIssue()
      modifies this`activeIssue
      ensures activeIssue == None
    {
      activeIssue := None;
    }

    /** The editor accepts typing only while an issue is open and idle: it is
        replaced while running and inert once done. The handlers themselves
        have no such guard; `Render` shows when the page lets them fire. */
    predicate EditorInteractive() reads this {
      activeIssue.Some? && agentStatus == Idle
    }

    /** The editor is replaced by the spinner while the agent runs. */
    predicate EditorHidden() reads this {
      activeIssue.Some? && agentStatus == Running
    }

    /** Typing into the editor: `setInstructions(e.target.value)`. */
    method EditInstructions(text: string)
      requires Valid()
      modifies this`instructions
      ensures Valid() && instructions == text
    {
      instructions := text;
    }

    /** `handleDispatch`: without an active issue nothing happens; otherwise
        the agent goes `running`, the issue and the current instructions are
        sent, the returned plan is stored and the agent goes `done`. `now` is
        the clock reading the service uses. */
    method HandleDispatch(now: nat)
      requires Valid()
      modifies this`agentStatus, this`agentPlan, this`statusTrace, this`dispatched
      ensures Valid()
      ensures old(activeIssue).None? ==>
        agentStatus == old(agentStatus) && agentPlan == old(agentPlan) &&
        statusTrace == old(statusTrace) && dispatched == old(dispatched)
      ensures old(activeIssue).Some? ==>
        && statusTrace == old(statusTrace) + [Running, Done]
        && dispatched == old(dispatched) + [(activeIssue.value.id, instructions)]
        && agentStatus == Done
        && agentPlan == MockApi.DispatchJulesAgent(activeIssue.value.id, instructions, now).plan
    {
      if activeIssue.None? {
        return;
      }
      agentStatus := Running;
      statusTrace := statusTrace + [Running];
      var response := MockApi.DispatchJulesAgent(activeIssue.value.id, instructions, now);
      dispatched := dispatched + [(activeIssue.value.id, instructions)];
      agentPlan := response.plan;
      agentStatus := Done;
      statusTrace := statusTrace + [Done];
    }

    /** The page: a prompt without a truthy selection; otherwise the tabs,
        the bundle's pull requests and issues (none before it loads) and the
        agent panel. */
    function Render(): (p: Page)
      reads this
      ensures (selectedRepoId.None? || selectedRepoId.value == 0) <==> p == NoRepository
      ensures p.Workspace? ==>
        && p.tabs == Tabs(watchedRepoIds, selectedRepoId)
        && (details.None? ==> p.prs == [] && p.issues == [])
        && (details.Some? ==> p.prs == details.value.prs && p.issues == details.value.issues)
        && p.panel == AgentPanel(activeIssue, agentStatus, instructions, agentPlan)
        && (p.panel.Editor? && p.panel.interactive <==> EditorInteractive())
        && (p.panel.Working? <==> EditorHidden())
    {
      if selectedRepoId.None? || selectedRepoId.value == 0 then NoRepository
      else
        Workspace(
          Tabs(watchedRepoIds, selectedRepoId),
          if details.Some? then details.value.prs else [],
          if details.Some? then details.value.issues else [],
          AgentPanel(activeIssue, agentStatus, instructions, agentPlan))
    }
  }

  /** Opening issue 201 of the authentication service and dispatching: the
      agent is idle once the issue is seeded, then passes through `running`
      to `done` and shows the fixed plan. */
  method DispatchScenario(now: nat) returns (seeded: AgentStatus, finished: AgentStatus,
                                             plan: seq<string>, sent: string, shown: Page)
    ensures seeded == Idle && finished == Done
    ensures plan == MockApi.FixedPlan
    ensures sent == SeedInstructions(MockApi.AuthIssues[0])
    ensures shown.Workspace? && shown.panel == Editor(MockApi.AuthIssues[0], sent, false, MockApi.FixedPlan)
  {
    var view := new ProjectsView([103], None);
    view.LoadSelected();
    var issue := MockApi.AuthIssues[0];
    assert issue in view.details.value.issues;
    view.SelectIssue(issue);
    seeded := view.agentStatus;
    view.HandleDispatch(now);
    assert view.statusTrace == [Idle, Idle, Running, Done];
    assert view.dispatched == [(201, view.instructions)];
    finished, plan, sent := view.agentStatus, view.agentPlan, view.instructions;
    shown := view.Render();
  }

  /** A selection that is not watched highlights no tab, since every tab
      comes from a watched id. */
  lemma UnwatchedSelectionHighlightsNothing(watched: seq<int>, selected: Option<int>)
    requires selected.Some? && selected.value !in watched
    ensures forall t :: t in Tabs(watched, selected) ==> !t.selected
  {
    var tabs := Tabs(watched, selected);
    forall t | t in tabs
      ensures !t.selected
    {
      var i :| 0 <= i < |tabs| && tabs[i] == t;
      assert t.repo in MockApi.KnownRepos(watched);
    }
  }

  /** Unwatching the open repository while the view is mounted: its tab
      leaves the row, yet it stays selected, so the row highlights no tab. */
  method UnwatchSelectedScenario() returns (selected: Option<int>, shown: Page)
    ensures selected == Some(101)
    ensures shown.Workspace? && |shown.tabs| == 1 && shown.tabs[0].repo.id == 103
    ensures forall t :: t in shown.tabs ==> !t.selected
  {
    var view := new ProjectsView([101, 103], None);
    view.SetWatched([103]);
    selected := view.selectedRepoId;
    shown := view.Render();
    MockApi.GetRepoByIdUnique(103, MockApi.AllUserRepos[2]);
    MockApi.KnownReposSingle(103);
    UnwatchedSelectionHighlightsNothing([103], selected);
  }
}
