/**
 * The `add` command's decisions: which project a path belongs to (an upward
 * search for the project's marker files) and what to do with the arguments.
 */
module CliAdd {
  import opened Wrappers
  import opened Paths
  import opened Probe
  import opened Invocation

  /** A marker's `type`: `'file'`, `'dir'`, or any other string, which never matches. */
  datatype MarkerType = FileMarker | DirMarker | OtherMarker(name: string)

  /** An entry `{path, type}` of the list that identifies a project root. */
  datatype Marker = Marker(path: string, kind: MarkerType)

  /** `paths.criticalPaths`: what a directory must hold to be a project root. */
  const CriticalPaths: seq<Marker> := [
    Marker("helpers", DirMarker),
    Marker("helpers/components.json", FileMarker),
    Marker("package.json", FileMarker)
  ]

  /** One marker matches directly under `dir` when the probe reports the marker's kind. */
  predicate MarkerHolds(fs: FileSystem, dir: Path, m: Marker)
  {
    var o := ItemExists(fs, JoinPath(dir, m.path));
    (m.kind == FileMarker && o.file) || (m.kind == DirMarker && o.dir)
  }

  /** `dir` is a project root: every marker matches under it. */
  predicate Satisfies(fs: FileSystem, dir: Path, markers: seq<Marker>)
  {
    forall i :: 0 <= i < |markers| ==> MarkerHolds(fs, dir, markers[i])
  }

  /** `successIter` after the probes of `markers`. */
  function CountMatches(fs: FileSystem, dir: Path, markers: seq<Marker>): (n: nat)
    ensures n <= |markers|
  {
    if markers == [] then 0
    else
      var last := |markers| - 1;
      CountMatches(fs, dir, markers[..last]) + (if MarkerHolds(fs, dir, markers[last]) then 1 else 0)
  }

  /** A level counts only when every probe succeeded: a partial count never does. */
  lemma CountMatchesAll(fs: FileSystem, dir: Path, markers: seq<Marker>)
    ensures CountMatches(fs, dir, markers) == |markers| <==> Satisfies(fs, dir, markers)
  {
    if CountMatches(fs, dir, markers) == |markers| {
      FullCountSatisfies(fs, dir, markers);
    }
    if Satisfies(fs, dir, markers) {
      SatisfiesFullCount(fs, dir, markers);
    }
  }

  lemma {:induction false} FullCountSatisfies(fs: FileSystem, dir: Path, markers: seq<Marker>)
    requires CountMatches(fs, dir, markers) == |markers|
    ensures Satisfies(fs, dir, markers)
    decreases |markers|
  {
    if markers != [] {
      var last := |markers| - 1;
      var init := markers[..last];
      assert CountMatches(fs, dir, init) <= |init|;
      FullCountSatisfies(fs, dir, init);
      forall i | 0 <= i < |markers|
        ensures MarkerHolds(fs, dir, markers[i])
      {
        if i < last { assert markers[i] == init[i]; }
      }
    }
  }

  lemma {:induction false} SatisfiesFullCount(fs: FileSystem, dir: Path, markers: seq<Marker>)
    requires Satisfies(fs, dir, markers)
    ensures CountMatches(fs, dir, markers) == |markers|
    decreases |markers|
  {
    if markers != [] {
      var last := |markers| - 1;
      var init := markers[..last];
      assert forall i :: 0 <= i < |init| ==> init[i] == markers[i];
      SatisfiesFullCount(fs, dir, init);
      assert MarkerHolds(fs, dir, markers[last]);
    }
  }

  datatype SearchResult = Found(path: Path) | NotRecognized(reason: string) | Unsettled

  function NotRecognizedMessage(tool: ToolInfo): string
  {
    "Could not recognize the " + tool.name + " project at the given path."
  }

  /**
   * The `for` loop of one level of `findProjectPath`: every marker is probed
   * under `currentPath` and `successIter` counts those that match.
   */
  method ProbeLevel(fs: FileSystem, currentPath: Path, seekingList: seq<Marker>)
    returns (successIter: nat, elemIter: nat)
    ensures elemIter == |seekingList|
    ensures successIter == |seekingList| <==> Satisfies(fs, currentPath, seekingList)
  {
    successIter, elemIter := 0, 0;
    while elemIter < |seekingList|
      invariant 0 <= elemIter <= |seekingList|
      invariant successIter == CountMatches(fs, currentPath, seekingList[..elemIter])
    {
      var elem := seekingList[elemIter];
      var o := ItemExists(fs, JoinPath(currentPath, elem.path));
      if elem.kind == FileMarker && o.file { successIter := successIter + 1; }
      if elem.kind == DirMarker && o.dir { successIter := successIter + 1; }
      assert seekingList[..elemIter + 1][..elemIter] == seekingList[..elemIter];
      elemIter := elemIter + 1;
    }
    assert seekingList[..elemIter] == seekingList;
    CountMatchesAll(fs, currentPath, seekingList);
  }

  /**
   * `handlers.findProjectPath`: from `dirPath` upwards, the nearest directory
   * under which every marker matches. The probes of one level run one after
   * the other here; `levels` counts the levels examined.
   */
  method FindProjectPath(tool: ToolInfo, fs: FileSystem, dirPath: Path, seekingList: seq<Marker>)
    returns (r: SearchResult, ghost levels: nat)
    ensures r.Unsettled? <==> seekingList == []
    ensures r.Found? ==> r.path <= dirPath && Satisfies(fs, r.path, seekingList)
    ensures r.Found? ==>
      forall k :: |r.path| < k <= |dirPath| ==> !Satisfies(fs, dirPath[..k], seekingList)
    ensures r.NotRecognized? ==> r.reason == NotRecognizedMessage(tool)
    ensures r.NotRecognized? ==>
      forall k :: 0 <= k <= |dirPath| ==> !Satisfies(fs, dirPath[..k], seekingList)
    ensures seekingList != [] && (forall k :: 0 <= k <= |dirPath| ==> !Satisfies(fs, dirPath[..k], seekingList)) ==>
      r.NotRecognized?
    ensures levels <= |dirPath| + 1
  {
    var currentPath := dirPath;
    var prevPath := currentPath;
    levels := 0;
    while true
      invariant currentPath <= dirPath
      invariant forall k :: |currentPath| < k <= |dirPath| ==> !Satisfies(fs, dirPath[..k], seekingList)
      invariant levels == |dirPath| - |currentPath|
      decreases |currentPath|
    {
      var successIter, elemIter := ProbeLevel(fs, currentPath, seekingList);
      levels := levels + 1;
      // `finish` only runs from a probe's callback: with no marker, nothing settles.
      if elemIter == 0 {
        r := Unsettled;
        return;
      }
      if elemIter == |seekingList| && successIter == |seekingList| {
        assert dirPath[..|currentPath|] == currentPath;
        r := Found(currentPath);
        return;
      }
      // `next`: a level where some marker failed never counts; go one level up.
      assert dirPath[..|currentPath|] == currentPath;
      prevPath := currentPath;
      currentPath := Dirname(currentPath);
      if currentPath == prevPath {
        r := NotRecognized(NotRecognizedMessage(tool));
        return;
      }
    }
  }

  /**
   * `handlers.setDefaultProjectPath`: the default answer of the "Project path"
   * question, the project around the working directory or `null`.
   */
  method SetDefaultProjectPath(tool: ToolInfo, fs: FileSystem, currentPath: Path) returns (r: Option<Path>)
    ensures r.Some? ==> r.value <= currentPath && Satisfies(fs, r.value, CriticalPaths)
    ensures r.Some? ==>
      forall k :: |r.value| < k <= |currentPath| ==> !Satisfies(fs, currentPath[..k], CriticalPaths)
    ensures r.None? <==> forall k :: 0 <= k <= |currentPath| ==> !Satisfies(fs, currentPath[..k], CriticalPaths)
  {
    var found, _ := FindProjectPath(tool, fs, currentPath, CriticalPaths);
    match found
    case Found(p) =>
      assert currentPath[..|p|] == p;
      r := Some(p);
    case _ =>
      r := None;
  }

  /**
   * `handlers.filterProjectPath`: the answer to "Project path" is resolved
   * against the working directory and replaced by the project around it.
   */
  method FilterProjectPath(tool: ToolInfo, fs: FileSystem, currentPath: Path, userPath: string)
    returns (r: SearchResult)
    ensures !r.Unsettled?
    ensures r.Found? ==>
      var start := Resolve(currentPath, userPath);
      r.path <= start && Satisfies(fs, r.path, CriticalPaths) &&
      forall k :: |r.path| < k <= |start| ==> !Satisfies(fs, start[..k], CriticalPaths)
    ensures r.NotRecognized? ==>
      var start := Resolve(currentPath, userPath);
      r.reason == NotRecognizedMessage(tool) &&
      forall k :: 0 <= k <= |start| ==> !Satisfies(fs, start[..k], CriticalPaths)
  {
    var resolved := Resolve(currentPath, userPath);
    ghost var levels;
    r, levels := FindProjectPath(tool, fs, resolved, CriticalPaths);
  }

  /** What `defineArguments` does with the arguments of `add`. */
  datatype AddStep = TakeQuestionnaire | RejectArguments(message: string) | ParseArguments | NoStep

  /** The flags `add` accepts, as the usage message lists them. */
  const FlagsUsage := "\n--path <path>\n--name <name>\n--entry true|false\n--pattern m|v|c|t|d"

  function InvalidArgumentsMessage(tool: ToolInfo): string
  {
    var add := tool.binCommand + " add";
    "Invalid arguments.\nUse " + add + " to fill in the form or " + add + " with the following arguments:" + FlagsUsage
  }

  /**
   * `defineArguments`: no positional argument runs the form, positional
   * arguments are refused, an object of flags goes to the argument parser.
   */
  function DefineArguments(tool: ToolInfo, args: CliArgs): (s: AddStep)
    ensures s == TakeQuestionnaire <==> args == ArgList([])
    ensures s.RejectArguments? <==> args.ArgList? && args.items != []
    ensures s.RejectArguments? ==> s.message == InvalidArgumentsMessage(tool)
    ensures s == ParseArguments <==> args.ArgFlags?
    ensures s == NoStep <==> args.ArgOther?
  {
    match args
    case ArgList(items) => if items == [] then TakeQuestionnaire else RejectArguments(InvalidArgumentsMessage(tool))
    case ArgFlags(_) => ParseArguments
    case ArgOther => NoStep
  }
}
