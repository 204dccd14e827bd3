# Focus Hub, modelled in Dafny

Focus Hub is a desktop dashboard for a developer's GitHub repositories. It has
a root component that gates the app behind API keys, keeps a persisted
watchlist and switches between views. The views are:

- a dashboard of issue and pull-request counts;
- a projects view where an issue seeds instructions for the "Jules" agent and
  runs a dispatch cycle;
- a knowledge view that renders repository documents with a fixed set of
  line rules.

There are also two modals: a watchlist search and an API-key dialog. Data
comes from an in-memory mock service. A thin bridge talks to the desktop host,
and falls back to inert answers when no host is present.

This project models that core on values and objects:

- Every record is a datatype.
- Every component's state is a class whose methods are the event handlers and
  effects, run in order.
- Each async effect is one sequential method.
- Ghost traces record what happened in between: a flag going up and down, the
  agent status passing through `running`, the store being written before it is
  saved.
- The JavaScript built-ins the code relies on are written out in module `Js`:
  truthiness of numbers, `||`, ASCII `toLowerCase`, `includes`, `startsWith`,
  string `replace`, `split`, `trim`, and `${n}`.

Modules follow the source files:

- `Wrappers`: Option, Result and Outcome.
- `Seqs`: sequence helpers.
- `Js`: the built-ins above.
- `Types`: the records of `types.ts`.
- `MockApi`: `services/mockApi.ts`.
- `TauriApi`: `services/tauriApi.ts`.
- `App`: `App.tsx`.
- One module per component: `Dashboard`, `Projects`, `KnowledgeHub`,
  `SettingsModal` and `WatchlistManager`.

## Model

| member | source | states |
|---|---|---|
| Js.FirstTruthy | components/KnowledgeHub.tsx:12 | `a \|\| b \|\| null` on optional numbers: the first that is present and non-zero, else none |
| Js.Head | components/KnowledgeHub.tsx:12 | `xs[0]` is present exactly for a non-empty list, and is then its first element |
| Js.ToLower | services/mockApi.ts:16 | `toLowerCase()`: same length, each character mapped to its ASCII lower case |
| Js.StartsWith | components/KnowledgeHub.tsx:95-97 | `startsWith`: the prefix is no longer than the text and equals its opening characters |
| Js.Includes | services/mockApi.ts:16 | `includes`: the pattern is a prefix of the text or of one of its suffixes |
| Js.ReplaceFirst | components/KnowledgeHub.tsx:95-97 | string `replace`: only the leftmost occurrence of the pattern is replaced; without one the text is returned |
| Js.Trim | components/KnowledgeHub.tsx:98 | `trim()`: leading and then trailing whitespace removed |
| Js.NumberToString | components/Projects.tsx:37 | `${n}` of an integer: a minus sign before the digits of `-n` for a negative `n`, the digits of `n` otherwise |
| Js.ToLowerIdempotent | services/mockApi.ts:16 | lower-casing twice is lower-casing once |
| Js.IncludesIffOccurs | services/mockApi.ts:16 | `includes` holds exactly when the pattern occurs at some index |
| Js.ReplaceFirstPrefix | components/KnowledgeHub.tsx:95-97 | a string `replace` of a marker the line starts with removes exactly that prefix |
| Js.ReplaceFirstAbsent | components/KnowledgeHub.tsx:95-97 | `replace` of a pattern that does not occur leaves the text unchanged |
| Js.Split | components/KnowledgeHub.tsx:94 | `split` always yields at least one piece |
| Js.SplitLength | components/KnowledgeHub.tsx:94 | the number of pieces is the number of separators plus one |
| Js.SplitPiecesFree | components/KnowledgeHub.tsx:94 | no piece contains the separator |
| Js.JoinSplit | components/KnowledgeHub.tsx:94 | joining the pieces with the separator gives the text back |
| Js.SplitJoin | components/KnowledgeHub.tsx:94 | splitting a join of separator-free pieces gives the pieces back |
| Js.SplitAt | components/KnowledgeHub.tsx:94 | a line, a separator and the rest split into the line followed by the rest's pieces |
| Js.TrimEmptyIffBlank | components/KnowledgeHub.tsx:98 | `trim()` is empty exactly when every character is whitespace |
| Js.NatToString | components/Projects.tsx:37 | `${n}` of a natural number is a non-empty run of digits |
| Js.ParseNatToString | components/Projects.tsx:37 | reading the digits of `${n}` back gives `n` |
| Js.TakeDigitsOf | components/Projects.tsx:37 | a digit run followed by a non-digit is read up to the non-digit |
| Types.FileNames | components/KnowledgeHub.tsx:20 | `Object.keys(files)`: one name per pair, in pair order |
| Types.Lookup | types.ts:25 | `files[name]` is present exactly when `name` is a key, and then it is that key's content |
| Seqs.RemoveAll | App.tsx:57 | `filter(rId => rId !== id)`: never longer, and an element is kept exactly when it was there and differs from the id |
| Seqs.RemoveAllNoDup | App.tsx:57 | `filter(x => x !== id)` keeps a list duplicate-free |
| Seqs.FilterMap | components/Dashboard.tsx:63-67 | `map` with the `null` results left out: never longer than the input, every hit comes from an element, and every element's hit is kept |
| Seqs.FilterMapAppend | components/Dashboard.tsx:63-67 | the hits of a concatenation are those of each part, in order |
| Seqs.RemoveAllAppend | App.tsx:57 | filtering distributes over concatenation |
| MockApi.AllUserReposUniqueIds | services/mockApi.ts:4-11 | the six listed repositories have distinct ids |
| MockApi.NameMatches | services/mockApi.ts:16 | the filter test: the lower-cased name includes the lower-cased query |
| MockApi.FilterByName | services/mockApi.ts:16 | the filter keeps exactly the repositories whose lower-cased name contains the lower-cased query, in list order |
| MockApi.SearchGithubRepos | services/mockApi.ts:13-17 | the empty query finds nothing; otherwise a repository is found iff its name matches; results are in list order, at most six, with distinct ids |
| MockApi.SubsequenceUniqueIds | services/mockApi.ts:16 | an order-preserving selection of repositories with distinct ids has distinct ids |
| MockApi.SearchIgnoresQueryCase | services/mockApi.ts:16 | a query and its lower-cased form find the same repositories |
| MockApi.FetchRepoDetails | services/mockApi.ts:20-49 | repository 103 has issues 201 and 202, PR 55 and files README.md and API.md; every other id has issue 1, PR 50 and files README.md and AGENTS.md; file names are distinct and README.md comes first |
| MockApi.FetchRepoDetailsDefault | services/mockApi.ts:40-48 | every id other than 103 gets one and the same bundle |
| MockApi.DispatchJulesAgent | services/mockApi.ts:52-59 | status `RUNNING` and the four-step plan; the session id starts with `sess_` |
| MockApi.DispatchIgnoresArguments | services/mockApi.ts:52-59 | the answer depends on neither the issue nor the instructions |
| MockApi.FindById | services/mockApi.ts:63 | `find` returns a repository of the list with the id, and none exactly when no repository has it |
| MockApi.FindByIdFirst | services/mockApi.ts:63 | when position `k` is the first with the id, `find` returns the repository at `k` |
| MockApi.GetRepoById | services/mockApi.ts:62-64 | a listed repository with the id, or none when no listed repository has it |
| MockApi.GetRepoByIdUnique | services/mockApi.ts:62-64 | every listed repository is found by its own id |
| MockApi.KnownRepos | components/Dashboard.tsx:63-67 | the repositories of the ids with a record, never more than the ids, all listed and watched, and every watched id with a record contributes its repository |
| MockApi.KnownReposSingle | components/Dashboard.tsx:64-67 | one id gives its repository, or nothing when `getRepoById` finds none |
| MockApi.KnownReposAppend | components/Dashboard.tsx:63-67 | the repositories of a concatenation are those of each part, in order, so the list follows watch order id by id |
| TauriApi.SaveApiKeys | services/tauriApi.ts:8-11 | without a host the save succeeds without storing; with one the host's outcome is the result |
| TauriApi.GetApiKeysStatus | services/tauriApi.ts:13-16 | without a host the keys count as not configured |
| TauriApi.SearchGithubRepos | services/tauriApi.ts:19-31 | the empty query, and every query without a host, finds nothing before any host call |
| TauriApi.FetchRepoDetails | services/tauriApi.ts:33-44 | without a host the bundle has no issues, no PRs and no files |
| TauriApi.DispatchJulesAgent | services/tauriApi.ts:47-57 | without a host the session is `mock`, the status `mock-running` and the plan empty |
| TauriApi.WatchlistStore.constructor | services/tauriApi.ts:64 | the store starts without a handle, with memory and file agreeing on what was persisted |
| TauriApi.WatchlistStore.Init | services/tauriApi.ts:66-80 | the handle is acquired only while there is none and is the same one on every later call; the file is loaded once, and only with a host |
| TauriApi.WatchlistStore.GetWatchedRepoIds | services/tauriApi.ts:82-86 | the stored `watched_ids` list, or `[]` when the key is absent or there is no host |
| TauriApi.WatchlistStore.SetWatchedRepoIds | services/tauriApi.ts:88-92 | `watched_ids` is written and then saved, so the file holds the new list with a host; nothing changes without one |
| TauriApi.ReadAfterWrite | services/tauriApi.ts:72-76 | a write then a read returns the written list with a host and `[]` without one |
| App.ToggleShape | App.tsx:55-58 | a watched id is removed entirely; an unwatched id is appended at the end |
| App.Toggle | App.tsx:56-58 | the toggled id's membership flips, every other id's membership is kept |
| App.ToggleNoDup | App.tsx:56-58 | a duplicate-free watchlist stays duplicate-free |
| App.ToggleKeepsOrder | App.tsx:56-58 | the other ids keep their relative order |
| App.ToggleTwice | App.tsx:56-58 | toggling an unwatched id twice restores the list; a watched id comes back at the end, so the set is restored |
| App.TogglesParity | App.tsx:55-62 | after any series of toggles an id is watched iff it was watched and toggled an even number of times, or was not and toggled an odd number of times |
| App.TogglesNoDup | App.tsx:55-62 | no series of toggles puts an id in the watchlist twice |
| App.RenderContent | App.tsx:65-98 | the configuration placeholder when the keys are not configured after loading, else the page of the current view; settings and unknown views show the dashboard |
| App.Controller.constructor | App.tsx:13-23 | the first render state: dashboard, no watchlist, no context, both modals closed, keys not configured, loading |
| App.Controller.Init | App.tsx:26-46 | the key status is stored, settings open when it is false, and the persisted watchlist is read; that read changes no stored data and adds one `get` after at most one `load`; a failed status call changes nothing else; loading ends either way |
| App.Controller.NavigateTo | App.tsx:49-52 | the view always changes; the repository context only for a truthy id |
| App.Controller.SetView | App.tsx:108 | the view changes |
| App.Controller.OpenWatchlist | App.tsx:109 | the watchlist modal opens |
| App.Controller.CloseWatchlist | App.tsx:116 | the watchlist modal closes |
| App.Controller.OpenSettings | App.tsx:71 | the settings modal opens |
| App.Controller.CloseSettings | App.tsx:123 | the settings modal closes |
| App.Controller.ToggleWatch | App.tsx:55-62 | the toggled list becomes the state and is then written to the store and saved |
| App.Controller.OnSaved | App.tsx:124-127 | keys count as configured and the settings modal closes |
| App.StartupThenToggleScenario | App.tsx:26-62 | on the host, a persisted `[101]` is read at startup; watching 103 then leaves `[101, 103]` in state and in the file |
| App.Controller.Render | App.tsx:100-102 | a loading screen until init ends, then the shell around the content |
| KnowledgeHub.ClassifyLine | components/KnowledgeHub.tsx:94-100 | the first matching rule wins: `# ` gives a heading with the rest of the line, `## ` a subheading, `- ` a list item, a whitespace-only line a break, anything else a paragraph |
| KnowledgeHub.SecondLevelIsNotFirst | components/KnowledgeHub.tsx:95-96 | a `## ` line is never taken for a first-level heading |
| KnowledgeHub.HeadingLine | components/KnowledgeHub.tsx:95 | a line opening with `# ` is a first-level heading of the rest |
| KnowledgeHub.EmptyLine | components/KnowledgeHub.tsx:98 | an empty line is a break |
| KnowledgeHub.ListItemLine | components/KnowledgeHub.tsx:97 | a line opening with `- ` is a list item of the rest |
| KnowledgeHub.ParagraphLine | components/KnowledgeHub.tsx:99 | a line opening with neither marker nor whitespace is a paragraph of itself |
| KnowledgeHub.Format | components/KnowledgeHub.tsx:94 | one element per line, element `i` the rule applied to line `i` |
| KnowledgeHub.FormatJoined | components/KnowledgeHub.tsx:94 | lines joined by newlines render as their elements in order |
| KnowledgeHub.FormatCons | components/KnowledgeHub.tsx:94 | a line followed by more renders as its element followed by the rest's |
| KnowledgeHub.FormatSingle | components/KnowledgeHub.tsx:94 | a text without a newline renders as one element |
| KnowledgeHub.FormatApiDoc | services/mockApi.ts:35 | the API document of 103 renders as a heading, a break and two list items |
| KnowledgeHub.ActiveContent | components/KnowledgeHub.tsx:26 | the active file's content when a non-empty file name is active, loaded and non-empty, otherwise `Select a file.`; in particular an active file with empty content shows `Select a file.`, and the result is never empty |
| KnowledgeHub.FirstFile | components/KnowledgeHub.tsx:20-21 | the first key of the files, present exactly when there are files |
| KnowledgeHub.FileButtons | components/KnowledgeHub.tsx:56-66 | one button per file name in key order, highlighted exactly when it is the active file |
| KnowledgeHub.Sidebar | components/KnowledgeHub.tsx:36-71 | one folder per watched id with a record, in watch order; open exactly when it is the selection; an open folder lists the loaded bundle's files, a closed one none |
| KnowledgeHub.AtMostOneHighlighted | components/KnowledgeHub.tsx:59-60 | with distinct file names at most one file button is highlighted |
| KnowledgeHub.HubView.constructor | components/KnowledgeHub.tsx:12-14 | the first truthy of the initial id and the first watched id is selected |
| KnowledgeHub.HubView.LoadSelected | components/KnowledgeHub.tsx:16-24 | a truthy selection stores its bundle and activates its first file; a bundle without files keeps the active file |
| KnowledgeHub.HubView.SetWatched | components/KnowledgeHub.tsx:11-37 | a new watchlist prop while mounted replaces the sidebar's list and nothing else |
| KnowledgeHub.HubView.SelectRepo | components/KnowledgeHub.tsx:16-44 | the clicked repository is selected; its bundle loads when the selection changed to a truthy id; id 0 and the same id keep the bundle and the active file |
| KnowledgeHub.HubView.SelectFile | components/KnowledgeHub.tsx:59 | the clicked file becomes active and stays one of the loaded files |
| KnowledgeHub.HubView.Content | components/KnowledgeHub.tsx:26 | with no active file the placeholder; otherwise the placeholder or the content of the active file |
| KnowledgeHub.HubView.SidebarView | components/KnowledgeHub.tsx:36-71 | the sidebar drawn from the current watchlist, selection, bundle and active file |
| KnowledgeHub.HubView.Document | components/KnowledgeHub.tsx:94-100 | one rendered element per line of the content |
| KnowledgeHub.DefaultSelectionScenario | components/KnowledgeHub.tsx:12-24 | watching 102 and 103 opens 102 with README.md active |
| Projects.SeedInstructions | components/Projects.tsx:37 | the seed starts with `Fix issue #` and ends with a blank line, `Context: ` and the body |
| Projects.SeedNamesIssue | components/Projects.tsx:37 | the number after `#` in the seed reads back as the issue id, negative ids included |
| Projects.ReadNumberToString | components/Projects.tsx:37 | a rendered number followed by a non-digit reads back as the number |
| Projects.Tabs | components/Projects.tsx:65-82 | one tab per watched id with a record, in watch order; a tab is selected exactly when its id is the selection |
| Projects.AgentPanel | components/Projects.tsx:173-255 | the placeholder exactly without an issue; the spinner exactly while running; otherwise the editor for the active issue with the current text, interactive exactly while idle, listing the plan when done and nothing otherwise |
| Projects.ProjectsView.constructor | components/Projects.tsx:22-27 | the same truthiness fallback as the knowledge view; idle, no plan, empty instructions |
| Projects.ProjectsView.SetWatched | components/Projects.tsx:21-65 | a new watchlist prop while mounted replaces the tab row's list and nothing else |
| Projects.ProjectsView.LoadSelected | components/Projects.tsx:29-33 | a truthy selection stores its bundle |
| Projects.ProjectsView.SelectRepoTab | components/Projects.tsx:29-72 | the tab's id becomes the selection and the active issue is cleared; the bundle reloads when the selection changed to a truthy id and is kept for id 0 or the same id |
| Projects.ProjectsView.Seed | components/Projects.tsx:35-41 | instructions become the seed, overwriting edits; status idle; plan empty |
| Projects.ProjectsView.SelectIssue | components/Projects.tsx:139 | another issue is seeded; the already active one changes nothing |
| Projects.ProjectsView.CloseIssue | components/Projects.tsx:167 | the active issue is cleared |
| Projects.ProjectsView.EditorInteractive | components/Projects.tsx:214-221 | the editor takes input exactly when an issue is open and the agent is idle: it is replaced while running and inert once done |
| Projects.ProjectsView.EditorHidden | components/Projects.tsx:214-219 | the spinner replaces the editor exactly when an issue is open and the agent is running |
| Projects.ProjectsView.EditInstructions | components/Projects.tsx:229-231 | typing replaces the instructions and nothing else |
| Projects.ProjectsView.HandleDispatch | components/Projects.tsx:43-49 | without an issue nothing changes; otherwise status goes `running` then `done`, the issue id and current instructions are sent, and the returned plan is stored |
| Projects.ProjectsView.Render | components/Projects.tsx:51-57 | a prompt exactly without a truthy selection; otherwise tabs, the bundle's PRs and issues, and the agent panel, whose editor takes input exactly when `EditorInteractive` holds and is replaced by the spinner exactly when `EditorHidden` holds |
| Projects.DispatchScenario | components/Projects.tsx:35-49 | issue 201 is seeded idle, dispatched to `done`, and the rendered panel is the inert editor holding the sent instructions and the fixed plan |
| Projects.UnwatchedSelectionHighlightsNothing | components/Projects.tsx:65-72 | a selection whose id is not watched highlights no tab |
| Projects.UnwatchSelectedScenario | components/Projects.tsx:22-82 | unwatching the open repository while mounted drops its tab but keeps it selected, so no tab is highlighted |
| SettingsModal.SaveDisabled | components/SettingsModal.tsx:80 | the save button is disabled when either key is empty or a save is under way |
| SettingsModal.SaveLabel | components/SettingsModal.tsx:84 | the button reads `Saving...` during a save and `Save Keys` otherwise |
| SettingsModal.ErrorText | components/SettingsModal.tsx:27 | the failure's text, or `Failed to save keys` when that text is empty; never empty |
| SettingsModal.Modal.constructor | components/SettingsModal.tsx:12-15 | both keys empty, no save under way, no error |
| SettingsModal.Modal.SetGithubKey | components/SettingsModal.tsx:49-50 | the field's text becomes the GitHub key |
| SettingsModal.Modal.SetJulesKey | components/SettingsModal.tsx:59-60 | the field's text becomes the Jules key |
| SettingsModal.Modal.Cancel | components/SettingsModal.tsx:72-77 | cancel only closes the dialog |
| SettingsModal.Modal.HandleSave | components/SettingsModal.tsx:19-31 | saving is flagged and the error cleared before the keys are sent; success fires `Saved` then `Closed`; failure shows the error and fires nothing; saving is over at the end |
| SettingsModal.Modal.Render | components/SettingsModal.tsx:17-85 | a closed dialog renders nothing; save is enabled iff both keys are non-empty and no save runs; the error banner shows exactly a present, non-empty error |
| SettingsModal.SaveWithoutHost | services/tauriApi.ts:9 | without a host any two keys are saved and the dialog is closed |
| SettingsModal.RetryAfterFailure | components/SettingsModal.tsx:20-28 | an empty host error shows the fixed message and a later success clears it |
| WatchlistManager.SearchesFor | components/WatchlistManager.tsx:20 | a search runs only for a query longer than one character |
| WatchlistManager.ListContent | components/WatchlistManager.tsx:72-111 | the spinner exactly while loading; else one row per result, watched iff its id is watched, toggling exactly its id; else a message that depends only on whether the query is empty |
| WatchlistManager.Manager.constructor | components/WatchlistManager.tsx:14-16 | empty query, no results, not loading |
| WatchlistManager.Manager.SetQuery | components/WatchlistManager.tsx:62-63 | the typed text becomes the query |
| WatchlistManager.Manager.OnTimerFired | components/WatchlistManager.tsx:18-30 | a query of at most one character empties the results without a search; a longer one raises the flag, stores the search result and lowers the flag |
| WatchlistManager.Manager.Render | components/WatchlistManager.tsx:32 | a closed dialog renders nothing; the footer count is the watchlist length |
| WatchlistManager.ShortQueryScenario | components/WatchlistManager.tsx:20-27 | a two-character query searches; cutting it to one clears the results without a second search |
| Dashboard.TotalIssues | components/Dashboard.tsx:29 | the total of an empty record is 0 |
| Dashboard.MinKey | components/Dashboard.tsx:29 | the least key of a non-empty record, where the sum starts |
| Dashboard.TotalIssuesRemove | components/Dashboard.tsx:29 | the sum does not depend on the order the values are visited in |
| Dashboard.TotalIssuesInsert | components/Dashboard.tsx:20 | storing a bundle under a new id adds its issue count to the total |
| Dashboard.LoadData | components/Dashboard.tsx:18-21 | the ids are fetched one after another in list order; the keys are exactly the watched ids, each mapped to its fetched bundle |
| Dashboard.TotalOfLoaded | components/Dashboard.tsx:29 | when every bundle has one issue except two for 103, the total is one per id plus one when 103 is present |
| Dashboard.LoadedIssueCounts | services/mockApi.ts:20-49 | every bundle of the service has one issue, except the two of 103 |
| Dashboard.CountedTotal | components/Dashboard.tsx:29 | with those counts and the keys of a watchlist, the total is one per distinct id plus one for 103 |
| Dashboard.LoadedTotal | components/Dashboard.tsx:18-29 | once loaded, the total is the number of distinct watched ids plus one for 103 |
| Dashboard.CardFor | components/Dashboard.tsx:63-128 | no card without a record; the skeleton iff loading or the bundle is missing; otherwise the issue and PR counts |
| Dashboard.CardsFor | components/Dashboard.tsx:63-67 | at most one card per watched id with a record, covering every such id |
| Dashboard.CardsForSingle | components/Dashboard.tsx:64-67 | one id gives its card, or nothing when `getRepoById` finds none |
| Dashboard.CardsForAppend | components/Dashboard.tsx:63-67 | the cards of a concatenation are those of each part, in order, so cards follow watch order id by id |
| Dashboard.RenderGrid | components/Dashboard.tsx:58-61 | the no-signals message exactly for an empty watchlist |
| Dashboard.View.constructor | components/Dashboard.tsx:12-13 | an empty record with the loading flag up |
| Dashboard.View.Render | components/Dashboard.tsx:29-61 | the header total is the total over the record, and the grid is rendered from the watchlist, the record and the flag |
| Dashboard.View.Refresh | components/Dashboard.tsx:15-27 | a non-empty list raises the flag, loads every bundle and stores them before lowering it; an empty list only lowers the flag and keeps the old record |
| Dashboard.View.SetWatched | components/Dashboard.tsx:27 | a new watchlist reruns the load |
| Dashboard.EmptyingScenario | components/Dashboard.tsx:25-29 | after emptying the watchlist the grid shows the message but the header still shows the earlier total of 3 |

## Left out

- Dashboard.View.Refresh: the record is not cleared when the watchlist
  becomes empty, because the code does not clear it. The header total
  therefore still counts the removed repositories.
  `Dashboard.EmptyingScenario` states this case.
- Timing and concurrency:
  - the mock service's artificial delays are left out;
  - so is the 300 ms debounce timer (a fired timer is a method call, and a
    cancelled one is simply not called);
  - so is the interleaving of async effects. A late fetch overwriting a
    newer selection cannot happen in the model, because each effect runs to
    completion.
- `Date.now()` is the parameter `now` of `MockApi.DispatchJulesAgent`.
- The host probe is the boolean `isHost`. The host's answers are
  parameters, because the desktop host (the Rust side) is not part of this
  model.
- Rejected host calls of `saveApiKeys`, `getApiKeysStatus`, the search, the
  fetch and the dispatch are `Result`/`Outcome` failures. The watchlist
  store's load, get, set and save never fail in the model, so two code paths
  are not modelled:
  - in `init` (App.tsx:37-44), a watchlist read that throws after the key
    status was stored: the catch runs, loading ends and the watchlist stays
    unread;
  - in `toggleWatch` (App.tsx:59-61), a rejected store write, which the code
    leaves unhandled after the new list is already in state.
- JavaScript numbers are unbounded integers: repository, issue and PR ids,
  counts and totals, `Date.now()` and the `${id}` of Projects.tsx:37. There
  is no NaN, no fractional id, no rounding above 2^53 and no exponent form
  of `${n}`.
- Console logging is left out.
- The layout component, styling and every JSX element without behaviour are
  left out. Views are modelled as datatypes listing what is shown.
- `Projects.ProjectsView.SelectIssue`: React compares the active issue by
  object identity, and the model compares by value. Re-clicking an equal
  issue from a re-fetched bundle re-seeds in the code, but not in the model.
- `Projects.ProjectsView.EditInstructions` and `HandleDispatch` model the
  handler bodies, which have no status guard. Whether the page lets them fire
  is stated by `Render` through `EditorInteractive`: the textarea and the
  button are replaced while running and inert once done.
- `App.Controller.ToggleWatch`: the React state is set before the store
  write is awaited, and the model does both in one step.
- Strings are sequences of characters:
  - lengths are counted in characters, not UTF-16 code units;
  - `toLowerCase` is ASCII only;
  - `trim` removes the ASCII whitespace characters only.
- `Object.keys` order of the files record is the order of the pairs. Integer
  keys, which JavaScript would move to the front, do not occur.
- `KnowledgeHub.FormatApiDoc` covers one mock document. The agents document
  of the default bundle is covered only by the general line lemmas.
- The "Run Jules Analysis" button, the live-feed widget and the review button
  do nothing in the code and are left out.
