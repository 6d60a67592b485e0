# componental command-line core in Dafny

This project models the decision logic of the `componental` command-line tool.
The tool has two commands.

- `componental add` finds the project a directory belongs to. It searches upwards for the nearest
  directory that holds the project's marker entries (`helpers/`, `helpers/components.json`,
  `package.json`). It also sorts the command's arguments into "run the form", "refuse" and
  "parse the flags".
- `componental init` creates a project from the tool's template. The model covers:
  - where the project goes (`determineInstallPath`);
  - the guard against installing inside `node_modules`;
  - the two name validators of the form and its keywords filter;
  - the table of optional dependencies and how the user's answers are recorded in it;
  - the rewrite of the template's `package.json`: form fields, `devDependencies` and the
    `postinstall` script;
  - the warning listing the files a copy would overwrite;
  - the verdict on the copy's report.

Every step works on values handed to it:
- the filesystem is a map from absolute paths to what `fs.stat` reports;
- prompt answers are parameters;
- JSON text arrives already parsed (or as "unparseable");
- the comparison and copy done by the `file-assistant` package arrive as their results.

Paths are absolute POSIX paths held as lists of segments, with "/" the empty list. `path.resolve`,
`path.join` and `path.dirname` act on those lists. JSON objects are ordered lists of members,
because the written `package.json` keeps JavaScript's key order. A key that is absent reads as
`undefined`.

The files:

- `wrappers.dfy`: `Option`.
- `strings.dfy`: `split`, `join` and decimal printing, with their round trips.
- `json.dfy`: JSON values, property reads and writes, and copying one object's fields onto another.
- `invocation.dfy`: the shapes of command arguments and of a step's outcome.
- `paths.dfy`: segment paths and normalisation.
- `probe.dfy`: `itemExists`.
- `cli_add.dfy`: the `add` command: project-root search and argument dispatch.
- `install_path.dfy`: the install path and the `node_modules` guard.
- `form_data.dfy`: the validators and the keywords filter.
- `dependencies.dfy`: the dependency table, a class whose records are updated in place.
- `package_json.dfy`: the `package.json` rewrite. It has one method per inner function of the
  handler, each proved equal to a specification function, and lemmas about those functions.
- `overwrite.dfy`: the overwrite warning and the copy's verdict.

Two behaviours of the code are modelled as written.
- The overwrite warning lists eleven names once there are more than ten, yet it announces
  `n - 10` more rather than `n - 11`. With exactly eleven names, all are listed and "and 1 more"
  still follows (`ElevenNamesAllListed`).
- The comment in `updateScriptPostInstall` says new packages are added to an existing
  `postinstall` script. The code replaces the script instead. The new value then begins with a
  space (`PostinstallArguments`).

## Model

| member | source | states |
|---|---|---|
| Strings.Split | bin/cli-init.js:189 | `split` returns at least one piece, and no piece contains the separator |
| Strings.JoinSplit | bin/cli-init.js:138 | joining the pieces of a split with the same separator gives back the original string |
| Strings.SplitJoin | bin/cli-init.js:138 | splitting a join of separator-free pieces gives back the pieces |
| Strings.NatToStringDecimal | bin/cli-init.js:328 | the printed count is a non-empty run of decimal digits that reads back as the number |
| Paths.Dirname | bin/cli-add.js:216 | `dirname` is the parent one segment shorter; it returns its argument exactly at the root |
| Paths.PathString | bin/cli-init.js:117 | the string form of a path is absolute: it starts with `/` |
| Paths.WalkNormal | bin/cli-init.js:117 | normalisation yields no empty, `.` or `..` segment, given a normalised base |
| Paths.ResolveNormal | bin/cli-init.js:117 | `path.resolve` against a normalised working directory gives a normalised path |
| Paths.SplitPathString | bin/cli-init.js:138 | splitting a path's string form on `/` gives an empty piece, then the segments |
| Paths.ResolvePathString | bin/cli-init.js:124 | resolving a normalised path's string form gives the path back, whatever the working directory |
| Probe.ItemExists | bin/cli-add.js:230-241 | a stat error sets `error` and clears `exists`, `file` and `dir`; otherwise `exists` is set, and `file`/`dir` hold exactly when the stat reports a regular file/directory, never both |
| CliAdd.CountMatchesAll | bin/cli-add.js:200-212 | the count of matching markers reaches the list's length exactly when every marker matches its kind |
| CliAdd.ProbeLevel | bin/cli-add.js:198-208 | every marker of a level is probed; the success counter equals the list length iff the level satisfies every marker |
| CliAdd.FindProjectPath | bin/cli-add.js:192-221 | the result is the start directory or an ancestor that satisfies every marker, and every directory strictly between the start and the result fails some marker; rejection with the "Could not recognize" message happens exactly when no ancestor-or-self, root included, satisfies them; an empty marker list never settles; at most depth + 1 levels are examined |
| CliAdd.SetDefaultProjectPath | bin/cli-add.js:175-191 | the default is the nearest project root around the working directory, and `null` exactly when there is none |
| CliAdd.FilterProjectPath | bin/cli-add.js:166-174 | the answer is resolved against the working directory, and the result is the nearest project root at or above it, or the rejection when there is none |
| CliAdd.DefineArguments | bin/cli-add.js:65-70 | an empty argument list runs the form; a non-empty list is refused with the usage message; an object of flags goes to the argument parser; anything else does nothing |
| InstallPath.DetermineInstallPath | bin/cli-init.js:110-131 | no argument gives the working directory; a positional argument is resolved; among the flags, `-p` wins over `--path` unless falsy; a non-string value is refused with the usage message; other argument shapes leave the path unset |
| InstallPath.InstallPathNormal | bin/cli-init.js:114-128 | every path the step settles on is absolute and normalised |
| InstallPath.ModulesPathSegment | bin/cli-init.js:138 | the test on the path string holds iff some segment of the path is exactly `node_modules` |
| InstallPath.PreventModulesPath | bin/cli-init.js:134-149 | the step proceeds iff the path is outside `node_modules` or the user confirms; it stops without a message otherwise |
| InstallPath.PreventModulesPathSegments | bin/cli-init.js:138-147 | for a normalised install path, the step proceeds iff no segment is `node_modules` or the user confirms |
| FormData.JudgeAccepts | bin/cli-init.js:258-260 | with non-empty messages, the validator returns `true` exactly when every rule passes |
| FormData.ValidateProjectName | bin/cli-init.js:235-261 | accepted iff the name has 1 to 214 characters, all from `[a-z0-9_.-]`, not beginning with `.` or `_`; otherwise the failed rules' messages in rule order |
| FormData.ValidateComponentName | bin/cli-init.js:263-289 | accepted iff the name has 1 to 214 characters, all from `[A-Za-z0-9$@_.-]`, neither beginning nor ending with `.`; otherwise the failed rules' messages in rule order |
| FormData.CapitalLetterReportedTwice | bin/cli-init.js:242-251 | a capital letter breaks both the upper-case rule and the characters rule, and both messages appear, in order, between the length and first-character messages |
| FormData.EmptyProjectName | bin/cli-init.js:236-257 | an empty name fails exactly the length rule and the characters rule |
| FormData.ProjectNameIsComponentName | bin/cli-init.js:235-289 | a valid project name not ending with `.` is a valid component name |
| FormData.NonEmpty | bin/cli-init.js:189 | the filter keeps only non-empty pieces, each taken from its input |
| FormData.Keywords | bin/cli-init.js:189 | no keyword is empty or contains a space |
| FormData.KeywordsKeepText | bin/cli-init.js:189 | the keywords hold every non-space character of the input, in order, and nothing else |
| FormData.NonEmptyAppend | bin/cli-init.js:189 | filtering a concatenation filters each part in turn, so the kept pieces keep their input order |
| FormData.NonEmptySingle | bin/cli-init.js:189 | a single piece is kept exactly when it is not empty |
| FormData.NonEmptyMembers | bin/cli-init.js:189 | a piece is in the filter's result exactly when it is non-empty and in the input |
| FormData.KeywordsMembers | bin/cli-init.js:189 | a word is a keyword exactly when it is a non-empty piece of the input split on single spaces |
| Dependencies.DependencyTable.constructor | bin/cli-init.js:66-107 | the table holds the three local and one global dependency, none chosen |
| Dependencies.DependencyTable.SetDependenciesInstall | bin/cli-init.js:293-300 | each dependency, local and global, takes the user's answer as its `install` flag; nothing else changes |
| JsonValues.Keys | bin/cli-init.js:427 | the keys of an object, one per member, in order |
| JsonValues.Lookup | bin/cli-init.js:442 | a property read finds a value exactly when the key is present |
| JsonValues.Put | bin/cli-init.js:428 | a property write sets the key, keeps an existing key in place and appends a new one last, and leaves every other key's value alone |
| JsonValues.PutPut | bin/cli-init.js:434 | a second write to the same key overrides the first without moving it |
| JsonValues.PutUnique | bin/cli-init.js:428 | writing keeps the keys distinct |
| JsonValues.UniqueLast | bin/cli-init.js:416 | with distinct keys, as `JSON.parse` yields, the value a read finds is the last assigned |
| JsonValues.MergeLookup | bin/cli-init.js:426-430 | after copying, each copied key holds its last value from the source, and every other key its old value |
| JsonValues.MergeKeys | bin/cli-init.js:426-430 | copying keeps the target's keys first and in order, and adds exactly the source's new keys |
| PackageJson.UpdatePackageData | bin/cli-init.js:426-430 | the loop assigns each form field in turn, giving the copy of the form onto the package |
| PackageJson.FormFieldsWritten | bin/cli-init.js:421-430 | in the written package, each form answer holds its value, other fields keep theirs, and the template's keys stay first and in order |
| PackageJson.DevDependenciesThrows | bin/cli-init.js:432-436 | the update throws iff some local dependency is chosen and `devDependencies` is missing or null; with none chosen nothing changes |
| PackageJson.DevDependenciesKeepOthers | bin/cli-init.js:432-436 | only `devDependencies` may change, and the top-level keys keep their order |
| PackageJson.DevDependenciesStep | bin/cli-init.js:433-435 | one more turn of the loop moves the result from one prefix of the list to the next: skip, throw, or write one entry |
| PackageJson.DevDependenciesThrownStays | bin/cli-init.js:434 | once a prefix of the list throws, the whole loop throws |
| PackageJson.InstalledDevDependenciesLookup | bin/cli-init.js:433-435 | the entries written are exactly the chosen packages, each with the version of its last chosen record |
| PackageJson.DevDependenciesAdded | bin/cli-init.js:432-436 | with a `devDependencies` object, each chosen package maps to its version and every other entry is kept |
| PackageJson.UpdateDependencies | bin/cli-init.js:432-436 | the loop's result is the `devDependencies` update, including the throw |
| PackageJson.SpecsCount | bin/cli-init.js:443-448 | the counter equals the number of `package@version` pieces appended |
| PackageJson.PostinstallStep | bin/cli-init.js:443-448 | one more turn keeps the counter and the command in step with the list |
| PackageJson.SpacedIsJoin | bin/cli-init.js:445 | appending each piece after a space gives a space followed by the pieces joined by spaces |
| PackageJson.PostinstallStage | bin/cli-init.js:438-450 | the update throws iff `scripts` is missing or null; with no global dependency chosen the package is unchanged |
| PackageJson.PostinstallKeepOthers | bin/cli-init.js:449 | only `scripts` may change, and the top-level keys keep their order |
| PackageJson.PostinstallSet | bin/cli-init.js:442-449 | with a `scripts` object and a chosen global dependency, `postinstall` holds the new command and every other script is kept |
| PackageJson.PostinstallArguments | bin/cli-init.js:440-449 | split on spaces, the command is `npm link` and then each chosen `package@version` in order; an existing script is replaced, leaving a leading empty word |
| PackageJson.PostinstallWritten | bin/cli-init.js:449 | the handler writes the built command exactly when the counter is positive and `scripts` is an object |
| PackageJson.UpdateScriptPostInstall | bin/cli-init.js:438-450 | the loop's result is the `postinstall` update, including the throw |
| PackageJson.UpdatedPackage | bin/cli-init.js:411-425 | an unparseable template is rejected with the reinstall message, and only it; a non-object template throws; a written package is an object |
| PackageJson.UpdatePackageJson | bin/cli-init.js:411-452 | the handler's three steps in turn give the specified outcome |
| InitOverwrite.QuotedNames | bin/cli-init.js:326 | each name is quoted, one quoted name per name, in order |
| InitOverwrite.ListingJoin | bin/cli-init.js:325-331 | names appended one at a time, each followed by `,\n`, then the last name, are the quoted names joined by `,\n` |
| InitOverwrite.LongListClosed | bin/cli-init.js:327-330 | closing the eleventh name with `n - 10`, the count the source announces, gives the warning for a long list |
| InitOverwrite.ShortListClosed | bin/cli-init.js:331 | closing the last of at most ten names with the question gives the warning for a short list |
| InitOverwrite.BuildWarning | bin/cli-init.js:322-331 | the loop builds the warning: up to ten names joined by `,\n`, then `.` and the question; from eleven on, the first eleven and `and n-10 more.` |
| InitOverwrite.PreventOverwritePath | bin/cli-init.js:314-344 | a failed comparison aborts with its message; no existing entry proceeds without a question; otherwise the warning is shown and the answer decides |
| InitOverwrite.ElevenNamesAllListed | bin/cli-init.js:327-329 | with exactly eleven names all of them are listed, and the text still announces one more |
| InitOverwrite.OnMergeDone | bin/cli-init.js:395-399 | the command proceeds iff the copy reports no error and no failed folder or file; an error gives the reinstall message, and failures give the "could not be added" message |

## Left out

- The `file-assistant` package is not part of this model. This covers the directory tree copy
  (bin/cli-init.js:393), `compare` (:318) and the descriptor in
  helpers/rename-template-files.js. Their results are inputs: `CompareOutcome` and `ApplyReport`.
- `inquirer` prompts are not modelled. Answers are parameters: `confirm`, the `answers` map and
  the `package` form fields. The project-path question's default and filter become
  `SetDefaultProjectPath` and `FilterProjectPath`.
- `fs.stat` is a map from paths to stat results. Symbolic links, permissions and errors other
  than a missing path are folded into it. `fs.readFile`, `JSON.parse`, `JSON.stringify` and
  `ensureDir` are left out. The parse result is an input.
- `semver.valid` and `spdx-correct` (bin/cli-init.js:166, :173) belong to foreign libraries.
- `cli-color` wrapping is treated as the identity; it only adds terminal colour codes.
- The `move-on` step chaining, `console` output and process exit are left out. A step's end is a
  `StepOutcome`.
- The empty stubs `definePaths`, `findCriticalFiles`, `synthComponents`, `parseArguments`,
  `generateComponentName` and `validateComponentName` of bin/cli-add.js (:132-160, :222-227) have
  no behaviour to model.
- bin/cli.js is a dispatch table over the external `get-arguments` package. It is not part of this
  model.
- Object keys are assumed to be ordinary names: not index-like (`"0"`, `"42"`) and not
  `__proto__`. JavaScript lists index-like keys first, in ascending order, and an assignment to
  `__proto__` creates no own key. JsonValues.Put, JsonValues.MergeKeys and
  PackageJson.FormFieldsWritten state key order for ordinary names only. Every key this code writes
  is ordinary: the form's `package` fields, the dependency package names, `devDependencies`,
  `scripts` and `postinstall`.
- CliAdd.FilterProjectPath: the source also stores the search result in `this.paths.projectPath`
  (bin/cli-add.js:170). The model only returns it. Nothing in bin/cli-add.js reads that field.
- Windows paths are left out: the separator is `/`.
- Floating-point JSON numbers are left out: `JNum` holds integers, which only matter here for
  truthiness.
- CliAdd.FindProjectPath: the probes of one level run concurrently in the source and finish in any
  order. The model runs them one after another. The counts the level is judged on are the same.
- FormData.ValidateProjectName: lengths count characters, while the source's regular expression
  counts UTF-16 code units. The two differ only for characters outside the Basic Multilingual
  Plane. Such characters already fail the characters rule, so only whether the length message
  also appears can differ.
- FormData.ValidateComponentName: lengths count characters rather than UTF-16 code units, with the
  same consequence as above.
- Dependencies.DependencyTable.SetDependenciesInstall: a question left unanswered stores `false`,
  where the source stores `undefined`. Both read as "not chosen" in every later step.
- PackageJson.UpdatedPackage: a template whose top level is an array is always reported as a
  `TypeError`. The source throws in most of these cases, but not in one. That case needs two
  things:
  - the form itself supplies a `scripts` value that is neither `undefined` nor `null`;
  - either no local dependency is chosen, or the form also supplies a `devDependencies` value that
    is neither `undefined` nor `null`.

  Then the source runs without throwing and writes the array unchanged, because properties added to
  an array are dropped when it is printed. In every other array case, reading
  `packageData.devDependencies[...]` or `packageData.scripts.postinstall` throws, as modelled.
  Top-level primitives and `null` always throw, as modelled.
- The `Undetermined` install path is not followed further. The source stores `undefined`, and the
  `node_modules` guard then fails when it splits it.
