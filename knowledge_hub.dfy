/** The knowledge view: a repository list, the files of the selected
    repository, and a fixed-rule line formatter for the active file. */
module KnowledgeHub {
  import opened Wrappers
  import opened Types
  import Js
  import MockApi

  // -------------------------------------------------------------- formatter

  /** The element one line becomes. */
  datatype Block =
    | Heading1(text: string)
    | Heading2(text: string)
    | ListItem(text: string)
    | LineBreak
    | Paragraph(text: string)

  /** The per-line rule: the first matching prefix wins; a whitespace-only line
      is a break and anything else a paragraph with its text unchanged. The
      marker is removed with `replace`, which drops its leftmost occurrence. */
  function ClassifyLine(line: string): (b: Block)
    ensures Js.StartsWith(line, "# ") ==> b == Heading1(line[2..])
    ensures !Js.StartsWith(line, "# ") && Js.StartsWith(line, "## ") ==> b == Heading2(line[3..])
    ensures !Js.StartsWith(line, "# ") && !Js.StartsWith(line, "## ") && Js.StartsWith(line, "- ") ==>
      b == ListItem(line[2..])
    ensures !Js.StartsWith(line, "# ") && !Js.StartsWith(line, "## ") && !Js.StartsWith(line, "- ") ==>
      b == (if Js.AllSpace(line) then LineBreak else Paragraph(line))
  {
    if Js.StartsWith(line, "# ") then
      Js.ReplaceFirstPrefix(line, "# ");
      Heading1(Js.ReplaceFirst(line, "# ", ""))
    else if Js.StartsWith(line, "## ") then
      Js.ReplaceFirstPrefix(line, "## ");
      Heading2(Js.ReplaceFirst(line, "## ", ""))
    else if Js.StartsWith(line, "- ") then
      Js.ReplaceFirstPrefix(line, "- ");
      ListItem(Js.ReplaceFirst(line, "- ", ""))
    else if Js.Trim(line) == "" then
      Js.TrimEmptyIffBlank(line);
      LineBreak
    else
      Js.TrimEmptyIffBlank(line);
      Paragraph(line)
  }

  /** A line starting with `## ` is never a first-level heading, because its
      second character is `#`. */
  lemma SecondLevelIsNotFirst(line: string)
    requires Js.StartsWith(line, "## ")
    ensures ClassifyLine(line) == Heading2(line[3..])
  {
    assert line[1] == '#';
  }

  /** A line opening with `# ` is a first-level heading of the rest. */
  lemma HeadingLine(line: string)
    requires |line| >= 2 && line[0] == '#' && line[1] == ' '
    ensures ClassifyLine(line) == Heading1(line[2..])
  {
    assert line[..2] == "# ";
  }

  /** An empty line is a break. */
  lemma EmptyLine(line: string)
    requires line == ""
    ensures ClassifyLine(line) == LineBreak
  {
    assert !Js.StartsWith(line, "# ") && !Js.StartsWith(line, "## ") && !Js.StartsWith(line, "- ");
  }

  /** A line opening with `- ` is a list item: no heading rule matches it. */
  lemma ListItemLine(line: string)
    requires |line| >= 2 && line[0] == '-' && line[1] == ' '
    ensures ClassifyLine(line) == ListItem(line[2..])
  {
    assert line[..2][0] == '-';
    assert line[..2] == "- ";
  }

  /** A line whose first character is neither a marker nor whitespace is a
      paragraph. */
  lemma ParagraphLine(line: string)
    requires |line| >= 1 && line[0] != '#' && line[0] != '-' && !Js.IsSpace(line[0])
    ensures ClassifyLine(line) == Paragraph(line)
  {
    assert !Js.StartsWith(line, "# ") by { if |line| >= 2 { assert line[..2][0] == line[0]; } }
    assert !Js.StartsWith(line, "## ") by { if |line| >= 3 { assert line[..3][0] == line[0]; } }
    assert !Js.StartsWith(line, "- ") by { if |line| >= 2 { assert line[..2][0] == line[0]; } }
  }

  /** `content.split('\n').map(ClassifyLine)`. */
  function Format(content: string): (blocks: seq<Block>)
    ensures |blocks| == |Js.Split(content, '\n')| == Js.CountChar(content, '\n') + 1
    ensures forall i :: 0 <= i < |blocks| ==> blocks[i] == ClassifyLine(Js.Split(content, '\n')[i])
  {
    var lines := Js.Split(content, '\n');
    Js.SplitLength(content, '\n');
    seq(|lines|, i requires 0 <= i < |lines| => ClassifyLine(lines[i]))
  }

  /** Formatting is line by line: the lines of a document joined by
      newlines render as their elements in order. */
  lemma FormatJoined(lines: seq<string>)
    requires |lines| >= 1
    requires forall i :: 0 <= i < |lines| ==> '\n' !in lines[i]
    ensures Format(Js.Join(lines, '\n')) == seq(|lines|, i requires 0 <= i < |lines| => ClassifyLine(lines[i]))
  {
    Js.SplitJoin(lines, '\n');
  }

  /** One element per line, for a document that is a line followed by more. */
  lemma FormatCons(line: string, rest: string)
    requires '\n' !in line
    ensures Format(line + "\n" + rest) == [ClassifyLine(line)] + Format(rest)
  {
    Js.SplitAt(line, rest, '\n');
  }

  lemma FormatSingle(line: string)
    requires '\n' !in line
    ensures Format(line) == [ClassifyLine(line)]
  {
    Js.SplitNoSep(line, '\n');
  }

  /** Four lines render as their four elements. */
  lemma FormatFour(a: string, b: string, c: string, d: string)
    requires '\n' !in a && '\n' !in b && '\n' !in c && '\n' !in d
    ensures Format(a + "\n" + (b + "\n" + (c + "\n" + d))) ==
      [ClassifyLine(a), ClassifyLine(b), ClassifyLine(c), ClassifyLine(d)]
  {
    FormatSingle(d);
    FormatCons(c, d);
    FormatCons(b, c + "\n" + d);
    FormatCons(a, b + "\n" + (c + "\n" + d));
  }

  /** One line of a document: it holds no newline and renders as `b`. */
  predicate RendersAs(line: string, b: Block) {
    '\n' !in line && ClassifyLine(line) == b
  }

  lemma EndpointsLine(line: string)
    requires line == "# Endpoints"
    ensures RendersAs(line, Heading1("Endpoints"))
  {
    HeadingLine(line);
    assert line[2..] == "Endpoints";
  }

  /** `- ` followed by a newline-free item renders as that item. */
  lemma ItemLine(line: string, item: string)
    requires line == "- " + item && '\n' !in item
    ensures RendersAs(line, ListItem(item))
  {
    ListItemLine(line);
    assert line[2..] == item;
  }

  /** Four lines that each render as one block render as those blocks. */
  lemma FormatFourBlocks(l1: string, l2: string, l3: string, l4: string,
                         b1: Block, b2: Block, b3: Block, b4: Block)
    requires RendersAs(l1, b1) && RendersAs(l2, b2) && RendersAs(l3, b3) && RendersAs(l4, b4)
    ensures Format(l1 + "\n" + (l2 + "\n" + (l3 + "\n" + l4))) == [b1, b2, b3, b4]
  {
    FormatFour(l1, l2, l3, l4);
  }

  lemma ApiDocConcat(doc: string, l1: string, l2: string, l3: string, l4: string)
    requires doc == MockApi.AuthApiDoc
    requires l1 == "# Endpoints" && l2 == "" && l3 == "- POST /login" && l4 == "- POST /refresh"
    ensures doc == l1 + "\n" + (l2 + "\n" + (l3 + "\n" + l4))
  {
  }

  /** The API document of repository 103 is four lines: a heading, an empty
      line and two list items. */
  lemma ApiDocLines(doc: string) returns (l1: string, l2: string, l3: string, l4: string)
    requires doc == MockApi.AuthApiDoc
    ensures doc == l1 + "\n" + (l2 + "\n" + (l3 + "\n" + l4))
    ensures RendersAs(l1, Heading1("Endpoints")) && RendersAs(l2, LineBreak)
    ensures RendersAs(l3, ListItem("POST /login")) && RendersAs(l4, ListItem("POST /refresh"))
  {
    l1, l2, l3, l4 := "# Endpoints", "", "- POST /login", "- POST /refresh";
    EndpointsLine(l1);
    EmptyLine(l2);
    ItemLine(l3, "POST /login");
    ItemLine(l4, "POST /refresh");
    ApiDocConcat(doc, l1, l2, l3, l4);
  }

  /** The API document of repository 103: a heading, a break, two list items. */
  lemma FormatApiDoc(doc: string)
    requires doc == MockApi.AuthApiDoc
    ensures Format(doc) ==
      [Heading1("Endpoints"), LineBreak, ListItem("POST /login"), ListItem("POST /refresh")]
  {
    var l1, l2, l3, l4 := ApiDocLines(doc);
    FormatFourBlocks(l1, l2, l3, l4,
                     Heading1("Endpoints"), LineBreak, ListItem("POST /login"), ListItem("POST /refresh"));
  }

  // ------------------------------------------------------------ selection

  const Placeholder := "Select a file."

  /** `activeContent`: the active file's content when a file is active (a
      non-empty name), the bundle is loaded and the content is non-empty;
      otherwise the placeholder. */
  function ActiveContent(activeFile: Option<string>, details: Option<RepoDetails>): (c: string)
    ensures c == Placeholder ||
            (activeFile.Some? && details.Some? && (activeFile.value, c) in details.value.files)
    ensures activeFile.Some? && activeFile.value != "" && details.Some? &&
            Lookup(details.value.files, activeFile.value).Some? &&
            Lookup(details.value.files, activeFile.value).value != "" ==>
      c == Lookup(details.value.files, activeFile.value).value
    ensures (activeFile.None? || activeFile.value == "" || details.None? ||
             activeFile.value !in FileNames(details.value.files)) ==> c == Placeholder
    ensures (activeFile.Some? && details.Some? &&
             Lookup(details.value.files, activeFile.value) == Some("")) ==> c == Placeholder
    ensures c != ""
  {
    if activeFile.Some? && activeFile.value != "" && details.Some? then
      match Lookup(details.value.files, activeFile.value)
      case Some(content) => if content != "" then content else Placeholder
      case None => Placeholder
    else Placeholder
  }

  /** The first key of a bundle's files, if any. */
  function FirstFile(files: Files): (r: Option<string>)
    ensures r.Some? <==> |files| > 0
    ensures r.Some? ==> r.value == FileNames(files)[0]
  {
    if |files| > 0 then Some(files[0].0) else None
  }

  // ------------------------------------------------------------ sidebar

  /** A file button: the name, highlighted when it is the active file. */
  datatype FileButton = FileButton(name: string, highlighted: bool)

  /** A repository folder: open when it is the selection, and then listing
      the loaded bundle's files. */
  datatype Folder = Folder(repo: Repo, open: bool, files: seq<FileButton>)

  /** The file buttons of a bundle, in key order. */
  function FileButtons(files: Files, activeFile: Option<string>): (buttons: seq<FileButton>)
    ensures |buttons| == |files|
    ensures forall i :: 0 <= i < |files| ==>
      buttons[i].name == files[i].0 && (buttons[i].highlighted <==> activeFile == Some(files[i].0))
  {
    var names := FileNames(files);
    seq(|names|, i requires 0 <= i < |names| => FileButton(names[i], activeFile == Some(names[i])))
  }

  /** The sidebar: one folder per watched id with a repository record, in
      watch order. A folder is open exactly when its id is the selection, and
      an open folder lists the files of whatever bundle is loaded. */
  function Sidebar(watched: seq<int>, selected: Option<int>, details: Option<RepoDetails>,
                   activeFile: Option<string>): (folders: seq<Folder>)
    ensures |folders| == |MockApi.KnownRepos(watched)|
    ensures forall i :: 0 <= i < |folders| ==>
      && folders[i].repo == MockApi.KnownRepos(watched)[i]
      && (folders[i].open <==> selected == Some(folders[i].repo.id))
      && folders[i].files ==
           (if folders[i].open && details.Some? then FileButtons(details.value.files, activeFile) else [])
  {
    var repos := MockApi.KnownRepos(watched);
    seq(|repos|, i requires 0 <= i < |repos| =>
      var open := selected == Some(repos[i].id);
      Folder(repos[i], open, if open && details.Some? then FileButtons(details.value.files, activeFile) else []))
  }

  /** With the files of a record, which have distinct names, at most one file
      button is highlighted in any folder. */
  lemma AtMostOneHighlighted(files: Files, activeFile: Option<string>, i: int, j: int)
    requires UniqueNames(files)
    requires 0 <= i < |files| && 0 <= j < |files|
    requires FileButtons(files, activeFile)[i].highlighted && FileButtons(files, activeFile)[j].highlighted
    ensures i == j
  {
    assert files[i].0 == files[j].0;
  }

  /** The view's state. The repository list and the file list are the
      sidebar; `activeFile` is always one of the loaded files. */
  class HubView {
    var watchedRepoIds: seq<int>
    var selectedRepoId: Option<int>
    var details: Option<RepoDetails>
    var activeFile: Option<string>

    ghost predicate Valid() reads this {
      activeFile.Some? ==> details.Some? && activeFile.value in FileNames(details.value.files)
    }

    /** Mounting: the initial repository is `initialRepoId` if truthy, else the
        first watched id if truthy, else none. */
    constructor (watchedRepoIds: seq<int>, initialRepoId: Option<int>)
      ensures this.watchedRepoIds == watchedRepoIds
      ensures selectedRepoId == Js.FirstTruthy(initialRepoId, Js.Head(watchedRepoIds))
      ensures details == None && activeFile == None && Valid()
    {
      this.watchedRepoIds := watchedRepoIds;
      selectedRepoId := Js.FirstTruthy(initialRepoId, Js.Head(watchedRepoIds));
      details := None;
      activeFile := None;
    }

    /** A new watchlist prop while mounted: the sidebar follows it, but no
        effect depends on it, so the selection, bundle and file are kept. */
    method SetWatched(ids: seq<int>)
      modifies this`watchedRepoIds
      ensures watchedRepoIds == ids
    {
      watchedRepoIds := ids;
    }

    /** The fetch effect for the selected repository: the bundle is stored and
        its first file becomes active; a bundle without files keeps the old
        active file. Nothing happens without a truthy selection. */
    method LoadSelected()
      requires Valid()
      modifies this`details, this`activeFile
      ensures Valid()
      ensures old(selectedRepoId).Some? && old(selectedRepoId).value != 0 ==>
        var d := MockApi.FetchRepoDetails(selectedRepoId.value);
        && details == Some(d)
        && activeFile == (if |d.files| > 0 then FirstFile(d.files) else old(activeFile))
      ensures old(selectedRepoId).None? || old(selectedRepoId).value == 0 ==>
        details == old(details) && activeFile == old(activeFile)
    {
      if selectedRepoId.Some? && selectedRepoId.value != 0 {
        var d := MockApi.FetchRepoDetails(selectedRepoId.value);
        details := Some(d);
        var files := FileNames(d.files);
        if |files| > 0 {
          activeFile := Some(files[0]);
        }
      }
    }

    /** A click on a repository of the sidebar; the fetch effect reruns when
        the selection changes. */
    method SelectRepo(id: int)
      requires Valid()
      modifies this`selectedRepoId, this`details, this`activeFile
      ensures Valid() && selectedRepoId == Some(id)
      ensures old(selectedRepoId) == Some(id) ==> details == old(details) && activeFile == old(activeFile)
      ensures old(selectedRepoId) != Some(id) && id != 0 ==>
        details == Some(MockApi.FetchRepoDetails(id)) &&
        activeFile == FirstFile(MockApi.FetchRepoDetails(id).files)
      ensures id == 0 ==> details == old(details) && activeFile == old(activeFile)
    {
      var changed := selectedRepoId != Some(id);
      selectedRepoId := Some(id);
      if changed {
        LoadSelected();
      }
    }

    /** A click on one of the loaded files. */
    method SelectFile(name: string)
      requires Valid() && details.Some? && name in FileNames(details.value.files)
      modifies this`activeFile
      ensures Valid() && activeFile == Some(name)
    {
      activeFile := Some(name);
    }

    /** The text shown in the viewer. */
    function Content(): (c: string)
      reads this
      requires Valid()
      ensures activeFile.None? ==> c == Placeholder
      ensures activeFile.Some? && c != Placeholder ==>
        (activeFile.value, c) in details.value.files
    {
      ActiveContent(activeFile, details)
    }

    /** The sidebar of the current state. */
    function SidebarView(): (folders: seq<Folder>)
      reads this
      ensures folders == Sidebar(watchedRepoIds, selectedRepoId, details, activeFile)
    {
      Sidebar(watchedRepoIds, selectedRepoId, details, activeFile)
    }

    /** The rendered document. */
    function Document(): (blocks: seq<Block>)
      reads this
      requires Valid()
      ensures |blocks| == Js.CountChar(Content(), '\n') + 1
    {
      Format(Content())
    }
  }

  /** Watching 102 and 103 without an initial repository opens 102 with its
      readme active. */
  method DefaultSelectionScenario() returns (selected: Option<int>, active: Option<string>)
    ensures selected == Some(102) && active == Some("README.md")
  {
    var view := new HubView([102, 103], None);
    view.LoadSelected();
    selected, active := view.selectedRepoId, view.activeFile;
  }
}
