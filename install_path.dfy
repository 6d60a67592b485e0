/**
 * The `init` command's first steps: where the new project goes
 * (`determineInstallPath`) and the guard against installing inside a
 * `node_modules` directory (`preventModulesPath`).
 */
module InstallPath {
  import opened Wrappers
  import opened Strings
  import opened Paths
  import opened JsonValues
  import opened Invocation

  /** `this.data.installPath` after the step, or the step's rejection. */
  datatype InstallTarget = InstallAt(path: Path) | Undetermined | InvalidArguments(message: string)

  function InvalidInitArgumentsMessage(tool: ToolInfo): string
  {
    var c := tool.binCommand;
    "Invalid arguments. Use:\n  " + c + " init\n  " + c + " init <path>\n  " + c + " init -p <path>\n  " + c + " init --path <path>"
  }

  /** `cliArgs[name]`, `undefined` when the flag was not given. */
  function Flag(flags: map<string, Json>, name: string): Option<Json>
  {
    if name in flags then Some(flags[name]) else None
  }

  predicate IsString(v: Option<Json>)
  {
    v.Some? && v.value.JStr?
  }

  /**
   * `determineInstallPath`: no argument installs in the working directory,
   * a positional argument is resolved against it, and of the flags `-p`
   * wins over `--path` unless `-p` is falsy; a flag value that is not a
   * string is refused. Any other kind of arguments leaves the path unset.
   */
  function DetermineInstallPath(tool: ToolInfo, currentPath: Path, args: CliArgs): (r: InstallTarget)
    ensures args == ArgList([]) ==> r == InstallAt(currentPath)
    ensures args.ArgList? && args.items != [] ==> r == InstallAt(Resolve(currentPath, args.items[0]))
    ensures args.ArgFlags? ==>
      var p := Flag(args.flags, "-p");
      var q := Flag(args.flags, "--path");
      && (Truthy(p) && p.value.JStr? ==> r == InstallAt(Resolve(currentPath, p.value.s)))
      && (!Truthy(p) && IsString(q) ==> r == InstallAt(Resolve(currentPath, q.value.s)))
      && (r.InvalidArguments? <==> if Truthy(p) then !p.value.JStr? else !IsString(q))
      && (r.InvalidArguments? ==> r.message == InvalidInitArgumentsMessage(tool))
    ensures args.ArgOther? ==> r == Undetermined
  {
    match args
    case ArgList(items) =>
      if items != [] then InstallAt(Resolve(currentPath, items[0])) else InstallAt(currentPath)
    case ArgFlags(flags) =>
      var p := Flag(flags, "-p");
      var getValue := if Truthy(p) then p else Flag(flags, "--path");
      if IsString(getValue) then InstallAt(Resolve(currentPath, getValue.value.s))
      else InvalidArguments(InvalidInitArgumentsMessage(tool))
    case ArgOther => Undetermined
  }

  /** Every path the step settles on is absolute and normalised. */
  lemma InstallPathNormal(tool: ToolInfo, currentPath: Path, args: CliArgs)
    requires Normal(currentPath)
    ensures DetermineInstallPath(tool, currentPath, args).InstallAt? ==>
      Normal(DetermineInstallPath(tool, currentPath, args).path)
  {
    match args
    case ArgList(items) =>
      if items != [] { ResolveNormal(currentPath, items[0]); }
    case ArgFlags(flags) =>
      var p := Flag(flags, "-p");
      var getValue := if Truthy(p) then p else Flag(flags, "--path");
      if IsString(getValue) { ResolveNormal(currentPath, getValue.value.s); }
    case ArgOther =>
  }

  /** `installPath.split(path.sep).some((a) => a === "node_modules")`. */
  predicate InModulesPath(installPath: string)
  {
    "node_modules" in Split(installPath, '/')
  }

  /** The test on the path string is exactly a test on the path's segments. */
  lemma ModulesPathSegment(p: Path)
    requires Normal(p)
    ensures InModulesPath(PathString(p)) <==> "node_modules" in p
  {
    SplitPathString(p);
  }

  /**
   * `preventModulesPath`: outside `node_modules` the step goes on; inside, it
   * goes on only if the user confirms, and otherwise stops without a message.
   */
  function PreventModulesPath(installPath: string, confirm: bool): (o: StepOutcome)
    ensures o == Proceed <==> !InModulesPath(installPath) || confirm
    ensures o.Abort? ==> o.reason == None
  {
    if !InModulesPath(installPath) then Proceed
    else if confirm then Proceed
    else Abort(None)
  }

  /** The guard asks exactly when some segment of the install path is `node_modules`. */
  lemma PreventModulesPathSegments(p: Path, confirm: bool)
    requires Normal(p)
    ensures PreventModulesPath(PathString(p), confirm) == Proceed <==> "node_modules" !in p || confirm
  {
    ModulesPathSegment(p);
  }
}
