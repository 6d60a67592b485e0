/**
 * `handlers.updatePackageJson`: the transform applied to the template's
 * package.json before it is written. The user's `package` answers overwrite
 * top-level fields, chosen local dependencies go into `devDependencies`, and
 * chosen global dependencies become the `postinstall` script. Parsing and
 * printing the JSON text are not modelled: the parse result is an input and
 * the written value an output.
 */
module PackageJson {
  import opened Wrappers
  import opened Strings
  import opened JsonValues
  import opened Dependencies
  import opened Invocation

  /** What `JSON.parse` made of the template's text. */
  datatype ParsedTemplate = Unparseable | Parsed(value: Json)

  /** The package object after one of the three updates, or the `TypeError` it threw. */
  datatype Stage = Continue(fields: Fields) | Thrown

  /** `resolve(toJSON(packageData))`, `reject(reason)`, or a `TypeError` escaping the transform. */
  datatype PackageOutcome = Written(package: Json) | Rejected(reason: string) | TypeError

  function ReinstallMessage(tool: ToolInfo): string
  {
    "Reinstall " + tool.name + " package and try again."
  }

  /** `undefined` or `null`: reading a property of it throws. */
  predicate IsNullish(v: Option<Json>)
  {
    v == None || v == Some(JNull)
  }

  predicate AnyInstalled(deps: seq<Dependency>)
  {
    exists i :: 0 <= i < |deps| && deps[i].install
  }

  /** `package: version` for each chosen dependency, in list order. */
  function InstalledDevDependencies(local: seq<Dependency>): Fields
    decreases |local|
  {
    if local == [] then []
    else
      var n := |local| - 1;
      InstalledDevDependencies(local[..n])
        + (if local[n].install then [(local[n].package, JStr(local[n].version))] else [])
  }

  /** One turn of `updateDependencies`'s loop. */
  function AssignDevDependency(fields: Fields, dep: Dependency): Stage
  {
    var devDependencies := Lookup(fields, "devDependencies");
    if !dep.install then Continue(fields)
    else if IsNullish(devDependencies) then Thrown
    else if devDependencies.value.JObj? then
      Continue(Put(fields, "devDependencies", JObj(Put(devDependencies.value.members, dep.package, JStr(dep.version)))))
    else Continue(fields)  // a property written on a primitive or an array is not printed
  }

  /**
   * `updateDependencies`: when some local dependency is chosen, the
   * `devDependencies` object receives each chosen `package: version`;
   * it throws when that object is missing or null.
   */
  function DevDependenciesStage(pkg: Fields, local: seq<Dependency>): Stage
  {
    var devDependencies := Lookup(pkg, "devDependencies");
    if !AnyInstalled(local) then Continue(pkg)
    else if IsNullish(devDependencies) then Thrown
    else if devDependencies.value.JObj? then
      Continue(Put(pkg, "devDependencies", JObj(MergeFields(devDependencies.value.members, InstalledDevDependencies(local)))))
    else Continue(pkg)
  }

  /**
   * The update throws exactly when some local dependency is chosen and
   * `devDependencies` is missing or null; with none chosen nothing changes.
   */
  lemma DevDependenciesThrows(pkg: Fields, local: seq<Dependency>)
    ensures DevDependenciesStage(pkg, local).Thrown? <==> AnyInstalled(local) && IsNullish(Lookup(pkg, "devDependencies"))
    ensures !AnyInstalled(local) ==> DevDependenciesStage(pkg, local) == Continue(pkg)
  {
  }

  /** Only `devDependencies` may change, and the keys keep their order. */
  lemma DevDependenciesKeepOthers(pkg: Fields, local: seq<Dependency>, k: string)
    requires DevDependenciesStage(pkg, local).Continue?
    ensures Keys(DevDependenciesStage(pkg, local).fields) == Keys(pkg)
    ensures k != "devDependencies" ==> Lookup(DevDependenciesStage(pkg, local).fields, k) == Lookup(pkg, k)
  {
  }

  lemma {:induction false} NoneInstalled(local: seq<Dependency>)
    requires !AnyInstalled(local)
    ensures InstalledDevDependencies(local) == []
    decreases |local|
  {
    if local != [] {
      var n := |local| - 1;
      assert !AnyInstalled(local[..n]) by {
        forall i | 0 <= i < n ensures !local[..n][i].install {
          assert local[..n][i] == local[i];
        }
      }
      NoneInstalled(local[..n]);
    }
  }

  lemma AnyInstalledSnoc(local: seq<Dependency>, i: nat)
    requires i < |local|
    ensures AnyInstalled(local[..i + 1]) <==> AnyInstalled(local[..i]) || local[i].install
  {
    var pre, next := local[..i], local[..i + 1];
    if AnyInstalled(next) {
      var j :| 0 <= j < |next| && next[j].install;
      if j < i { assert pre[j] == next[j]; }
    }
    if AnyInstalled(pre) {
      var j :| 0 <= j < |pre| && pre[j].install;
      assert next[j] == pre[j];
    }
  }

  lemma InstalledSnoc(local: seq<Dependency>, i: nat)
    requires i < |local|
    ensures InstalledDevDependencies(local[..i + 1])
         == InstalledDevDependencies(local[..i])
            + (if local[i].install then [(local[i].package, JStr(local[i].version))] else [])
  {
    assert local[..i + 1][..i] == local[..i];
  }

  lemma MergeSnoc(d: Fields, pairs: Fields, pair: (string, Json))
    ensures MergeFields(d, pairs + [pair]) == Put(MergeFields(d, pairs), pair.0, pair.1)
  {
    assert (pairs + [pair])[..|pairs|] == pairs;
  }

  /** One more turn of the loop moves the stage from a prefix of the list to the next prefix. */
  lemma DevDependenciesStep(pkg: Fields, local: seq<Dependency>, i: nat, fields: Fields)
    requires i < |local|
    requires DevDependenciesStage(pkg, local[..i]) == Continue(fields)
    ensures AssignDevDependency(fields, local[i]) == DevDependenciesStage(pkg, local[..i + 1])
    ensures !local[i].install ==> DevDependenciesStage(pkg, local[..i + 1]) == Continue(fields)
    ensures local[i].install && IsNullish(Lookup(fields, "devDependencies")) ==>
      DevDependenciesStage(pkg, local[..i + 1]) == Thrown
    ensures local[i].install && Lookup(fields, "devDependencies").Some? && Lookup(fields, "devDependencies").value.JObj? ==>
      DevDependenciesStage(pkg, local[..i + 1])
      == Continue(Put(fields, "devDependencies",
                      JObj(Put(Lookup(fields, "devDependencies").value.members, local[i].package, JStr(local[i].version)))))
    ensures local[i].install && !IsNullish(Lookup(fields, "devDependencies")) && !Lookup(fields, "devDependencies").value.JObj? ==>
      DevDependenciesStage(pkg, local[..i + 1]) == Continue(fields)
  {
    AnyInstalledSnoc(local, i);
    InstalledSnoc(local, i);
    if !local[i].install {
      SkippedStep(pkg, local[..i], local[..i + 1]);
    } else if !AnyInstalled(local[..i]) {
      NoneInstalled(local[..i]);
      FirstInstalledStep(pkg, local[..i + 1], local[i]);
    } else {
      LaterInstalledStep(pkg, local[..i], local[..i + 1], local[i]);
    }
  }

  lemma SkippedStep(pkg: Fields, pre: seq<Dependency>, next: seq<Dependency>)
    requires AnyInstalled(next) == AnyInstalled(pre)
    requires InstalledDevDependencies(next) == InstalledDevDependencies(pre) + []
    ensures DevDependenciesStage(pkg, next) == DevDependenciesStage(pkg, pre)
  {
    assert InstalledDevDependencies(pre) + [] == InstalledDevDependencies(pre);
  }

  lemma FirstInstalledStep(pkg: Fields, next: seq<Dependency>, dep: Dependency)
    requires dep.install && AnyInstalled(next)
    requires InstalledDevDependencies(next) == [] + [(dep.package, JStr(dep.version))]
    ensures AssignDevDependency(pkg, dep) == DevDependenciesStage(pkg, next)
  {
    var pair := (dep.package, JStr(dep.version));
    assert [] + [pair] == [pair];
    match Lookup(pkg, "devDependencies")
    case Some(JObj(d)) =>
      MergeSnoc(d, [], pair);
      assert MergeFields(d, [pair]) == Put(d, dep.package, JStr(dep.version));
    case _ =>
  }

  lemma LaterInstalledStep(pkg: Fields, pre: seq<Dependency>, next: seq<Dependency>, dep: Dependency)
    requires dep.install && AnyInstalled(pre) && AnyInstalled(next)
    requires DevDependenciesStage(pkg, pre).Continue?
    requires InstalledDevDependencies(next) == InstalledDevDependencies(pre) + [(dep.package, JStr(dep.version))]
    ensures AssignDevDependency(DevDependenciesStage(pkg, pre).fields, dep) == DevDependenciesStage(pkg, next)
  {
    var devDependencies := Lookup(pkg, "devDependencies");
    if devDependencies.value.JObj? {
      var d := devDependencies.value.members;
      var pairs := InstalledDevDependencies(pre);
      var merged := MergeFields(d, pairs);
      var extended := Put(merged, dep.package, JStr(dep.version));
      MergeSnoc(d, pairs, (dep.package, JStr(dep.version)));
      PutPut(pkg, "devDependencies", JObj(merged), JObj(extended));
    }
  }

  /** Once a prefix of the list has thrown, the whole loop throws. */
  lemma DevDependenciesThrownStays(pkg: Fields, local: seq<Dependency>, i: nat)
    requires i <= |local|
    requires DevDependenciesStage(pkg, local[..i]).Thrown?
    ensures DevDependenciesStage(pkg, local).Thrown?
  {
    var j :| 0 <= j < i && local[..i][j].install;
    assert local[j] == local[..i][j];
  }

  /** The packages the user chose, and the version the last of them asks for. */
  predicate IsInstalledPackage(local: seq<Dependency>, p: string)
  {
    exists i :: 0 <= i < |local| && local[i].install && local[i].package == p
  }

  function InstalledVersion(local: seq<Dependency>, p: string): string
    requires IsInstalledPackage(local, p)
    decreases |local|
  {
    var n := |local| - 1;
    if local[n].install && local[n].package == p then local[n].version
    else
      assert IsInstalledPackage(local[..n], p) by {
        var i :| 0 <= i < |local| && local[i].install && local[i].package == p;
        assert i < n && local[..n][i] == local[i];
      }
      InstalledVersion(local[..n], p)
  }

  lemma IsInstalledSnoc(local: seq<Dependency>, p: string)
    requires local != []
    ensures IsInstalledPackage(local, p) <==>
      IsInstalledPackage(local[..|local| - 1], p) || (local[|local| - 1].install && local[|local| - 1].package == p)
  {
    var n := |local| - 1;
    var init := local[..n];
    if IsInstalledPackage(local, p) {
      var i :| 0 <= i < |local| && local[i].install && local[i].package == p;
      if i < n { assert init[i] == local[i]; }
    }
    if IsInstalledPackage(init, p) {
      var i :| 0 <= i < |init| && init[i].install && init[i].package == p;
      assert local[i] == init[i];
    }
  }

  lemma {:induction false} InstalledDevDependenciesLookup(local: seq<Dependency>, p: string)
    ensures p in Keys(InstalledDevDependencies(local)) <==> IsInstalledPackage(local, p)
    ensures IsInstalledPackage(local, p) ==>
      LastValue(InstalledDevDependencies(local), p) == JStr(InstalledVersion(local, p))
    decreases |local|
  {
    if local != [] {
      var n := |local| - 1;
      var init := local[..n];
      var head := InstalledDevDependencies(init);
      InstalledDevDependenciesLookup(init, p);
      IsInstalledSnoc(local, p);
      if local[n].install {
        var pair := (local[n].package, JStr(local[n].version));
        var pairs := head + [pair];
        assert InstalledDevDependencies(local) == pairs;
        KeysAppend(head, [pair]);
        assert pairs[..|pairs| - 1] == head;
      } else {
        assert InstalledDevDependencies(local) == head + [] == head;
      }
    }
  }

  /**
   * When `devDependencies` is an object and some local dependency is chosen,
   * each chosen package maps to its version and every other entry is kept.
   */
  lemma DevDependenciesAdded(pkg: Fields, local: seq<Dependency>, d: Fields, p: string)
    requires Lookup(pkg, "devDependencies") == Some(JObj(d))
    requires AnyInstalled(local)
    ensures DevDependenciesStage(pkg, local).Continue?
    ensures Lookup(DevDependenciesStage(pkg, local).fields, "devDependencies").Some?
    ensures Lookup(DevDependenciesStage(pkg, local).fields, "devDependencies").value.JObj?
    ensures
      var d' := Lookup(DevDependenciesStage(pkg, local).fields, "devDependencies").value.members;
      Lookup(d', p) == if IsInstalledPackage(local, p) then Some(JStr(InstalledVersion(local, p))) else Lookup(d, p)
  {
    InstalledDevDependenciesLookup(local, p);
    MergeLookup(d, InstalledDevDependencies(local), p);
  }

  /** The `package@version` argument `npm install -g` takes. */
  function Spec(dep: Dependency): string
  {
    dep.package + "@" + dep.version
  }

  /** Each piece preceded by a space, as the loop appends them. */
  function Spaced(pieces: seq<string>): string
    decreases |pieces|
  {
    if pieces == [] then "" else Spaced(pieces[..|pieces| - 1]) + " " + pieces[|pieces| - 1]
  }

  /** The `iter` counter: how many global dependencies are chosen. */
  function InstalledCount(global: seq<Dependency>): nat
    decreases |global|
  {
    if global == [] then 0
    else
      var n := |global| - 1;
      InstalledCount(global[..n]) + (if global[n].install then 1 else 0)
  }

  /** `package@version` of each chosen global dependency, in list order. */
  function InstalledSpecs(global: seq<Dependency>): (r: seq<string>)
    decreases |global|
  {
    if global == [] then []
    else
      var n := |global| - 1;
      InstalledSpecs(global[..n]) + (if global[n].install then [Spec(global[n])] else [])
  }

  /** One turn of `updateScriptPostInstall`'s loop keeps the command and counter in step with the list. */
  lemma PostinstallStep(global: seq<Dependency>, i: nat, command: string, postinstall: string, iter: nat)
    requires i < |global|
    requires iter == InstalledCount(global[..i])
    requires postinstall == command + Spaced(InstalledSpecs(global[..i]))
    ensures (if global[i].install then iter + 1 else iter) == InstalledCount(global[..i + 1])
    ensures (if global[i].install then postinstall + " " + Spec(global[i]) else postinstall)
         == command + Spaced(InstalledSpecs(global[..i + 1]))
  {
    assert global[..i + 1][..i] == global[..i];
    var specs := InstalledSpecs(global[..i]);
    if global[i].install {
      SpacedSnoc(command, specs, Spec(global[i]));
    } else {
      assert InstalledSpecs(global[..i + 1]) == specs + [];
      assert specs + [] == specs;
    }
  }

  lemma SpacedSnoc(command: string, specs: seq<string>, spec: string)
    ensures command + Spaced(specs + [spec]) == command + Spaced(specs) + " " + spec
  {
    assert (specs + [spec])[..|specs|] == specs;
    var a := command;
    var b := Spaced(specs);
    assert a + (b + " " + spec) == a + b + " " + spec;
  }

  /** `packageData.scripts.postinstall`, `undefined` when `scripts` is not an object. */
  function ExistingPostinstall(scripts: Json): Option<Json>
  {
    if scripts.JObj? then Lookup(scripts.members, "postinstall") else None
  }

  /** The new `postinstall` value: `npm link` only when there was none, then the chosen packages. */
  function PostinstallCommand(scripts: Json, global: seq<Dependency>): string
  {
    (if Truthy(ExistingPostinstall(scripts)) then "" else "npm link") + Spaced(InstalledSpecs(global))
  }

  /**
   * `updateScriptPostInstall`: when some global dependency is chosen,
   * `scripts.postinstall` is set; reading `scripts` throws when it is missing or null.
   */
  function PostinstallStage(pkg: Fields, global: seq<Dependency>): (r: Stage)
    ensures r.Thrown? <==> IsNullish(Lookup(pkg, "scripts"))
    ensures r.Continue? && InstalledCount(global) == 0 ==> r.fields == pkg
  {
    var scripts := Lookup(pkg, "scripts");
    if IsNullish(scripts) then Thrown
    else if InstalledCount(global) == 0 || !scripts.value.JObj? then Continue(pkg)  // a property written on a primitive or an array is not printed
    else
      Continue(Put(pkg, "scripts", JObj(Put(scripts.value.members, "postinstall",
                                            JStr(PostinstallCommand(scripts.value, global))))))
  }

  /** Only `scripts` may change, and the keys keep their order. */
  lemma PostinstallKeepOthers(pkg: Fields, global: seq<Dependency>, k: string)
    requires PostinstallStage(pkg, global).Continue?
    ensures Keys(PostinstallStage(pkg, global).fields) == Keys(pkg)
    ensures k != "scripts" ==> Lookup(PostinstallStage(pkg, global).fields, k) == Lookup(pkg, k)
  {
  }

  /**
   * With an object under `scripts` and some global dependency chosen,
   * `postinstall` holds the new command and every other script is kept.
   */
  lemma PostinstallSet(pkg: Fields, global: seq<Dependency>, scripts: Fields, k: string)
    requires Lookup(pkg, "scripts") == Some(JObj(scripts))
    requires InstalledCount(global) > 0
    ensures PostinstallStage(pkg, global).Continue?
    ensures Lookup(PostinstallStage(pkg, global).fields, "scripts").Some?
    ensures Lookup(PostinstallStage(pkg, global).fields, "scripts").value.JObj?
    ensures
      var scripts' := Lookup(PostinstallStage(pkg, global).fields, "scripts").value.members;
      Lookup(scripts', "postinstall") == Some(JStr(PostinstallCommand(JObj(scripts), global))) &&
      (k != "postinstall" ==> Lookup(scripts', k) == Lookup(scripts, k))
  {
  }

  lemma {:induction false} SpecsCount(global: seq<Dependency>)
    ensures |InstalledSpecs(global)| == InstalledCount(global)
    decreases |global|
  {
    if global != [] {
      SpecsCount(global[..|global| - 1]);
    }
  }

  lemma {:induction false} SpacedIsJoin(pieces: seq<string>)
    ensures pieces != [] ==> Spaced(pieces) == " " + Join(pieces, " ")
    decreases |pieces|
  {
    if pieces != [] {
      var n := |pieces| - 1;
      var init := pieces[..n];
      assert pieces == init + [pieces[n]];
      SpacedIsJoin(init);
      if init != [] {
        JoinSnoc(init, pieces[n], " ");
      } else {
        assert pieces == [pieces[n]];
      }
    }
  }

  /**
   * Split on spaces, the new `postinstall` command is `npm link` followed by
   * each chosen `package@version`; when a command was already there, it is
   * replaced rather than extended, and the value starts with a space.
   */
  lemma PostinstallArguments(scripts: Json, global: seq<Dependency>)
    requires InstalledCount(global) > 0
    requires forall i :: 0 <= i < |InstalledSpecs(global)| ==> ' ' !in InstalledSpecs(global)[i]
    ensures Split(PostinstallCommand(scripts, global), ' ')
         == (if Truthy(ExistingPostinstall(scripts)) then [""] else ["npm", "link"]) + InstalledSpecs(global)
  {
    SpecsCount(global);
    var specs := InstalledSpecs(global);
    SpacedIsJoin(specs);
    if Truthy(ExistingPostinstall(scripts)) {
      ArgumentsAfter("", [""], specs);
    } else {
      JoinCons("link", specs, " ");
      NpmLink(Join(specs, " "));
      ArgumentsAfter("npm link", ["npm", "link"], specs);
    }
  }

  /** A command whose words are `head`, followed by the specs, splits back into those words. */
  lemma ArgumentsAfter(command: string, head: seq<string>, specs: seq<string>)
    requires head != [] && specs != []
    requires Join(head + specs, " ") == command + (" " + Join(specs, " "))
    requires forall i :: 0 <= i < |head| ==> ' ' !in head[i]
    requires forall i :: 0 <= i < |specs| ==> ' ' !in specs[i]
    ensures Split(command + (" " + Join(specs, " ")), ' ') == head + specs
  {
    var parts := head + specs;
    forall i | 0 <= i < |parts|
      ensures ' ' !in parts[i]
    {
      if i >= |head| {
        assert parts[i] == specs[i - |head|];
      }
    }
    SplitJoin(parts, ' ');
  }

  lemma JoinCons(x: string, rest: seq<string>, sep: string)
    requires rest != []
    ensures Join([x] + rest, sep) == x + sep + Join(rest, sep)
  {
    assert ([x] + rest)[1..] == rest;
  }

  lemma NpmLink(tail: string)
    ensures "npm" + " " + ("link" + " " + tail) == "npm link" + (" " + tail)
  {
  }

  /** `updatePackageData`, `updateDependencies`, `updateScriptPostInstall` in turn. */
  function UpdatedPackage(tool: ToolInfo, parsed: ParsedTemplate, form: Fields,
                          local: seq<Dependency>, global: seq<Dependency>): (r: PackageOutcome)
    ensures r.Rejected? <==> parsed.Unparseable?
    ensures r.Rejected? ==> r.reason == ReinstallMessage(tool)
    ensures parsed.Parsed? && !parsed.value.JObj? ==> r == TypeError
    ensures r.Written? ==> r.package.JObj?
  {
    match parsed
    case Unparseable => Rejected(ReinstallMessage(tool))
    case Parsed(JObj(members)) =>
      (match DevDependenciesStage(MergeFields(members, form), local)
       case Thrown => TypeError
       case Continue(withDevDependencies) =>
         (match PostinstallStage(withDevDependencies, global)
          case Thrown => TypeError
          case Continue(result) => Written(JObj(result))))
    // every path through the updates reads `packageData.scripts.postinstall`,
    // which throws when the top level is not an object
    case Parsed(_) => TypeError
  }

  /**
   * Each answer of the `package` form overwrites the field of the same name;
   * every other field keeps its value and the template's keys keep their order.
   */
  lemma FormFieldsWritten(tool: ToolInfo, members: Fields, form: Fields,
                          local: seq<Dependency>, global: seq<Dependency>, k: string)
    requires UniqueKeys(form)
    requires UpdatedPackage(tool, Parsed(JObj(members)), form, local, global).Written?
    requires k != "devDependencies" && k != "scripts"
    ensures
      var out := UpdatedPackage(tool, Parsed(JObj(members)), form, local, global).package.members;
      Keys(members) <= Keys(out) &&
      Lookup(out, k) == if k in Keys(form) then Lookup(form, k) else Lookup(members, k)
  {
    var merged := MergeFields(members, form);
    var dev := DevDependenciesStage(merged, local);
    DevDependenciesKeepOthers(merged, local, k);
    PostinstallKeepOthers(dev.fields, global, k);
    MergeKeys(members, form);
    MergeLookup(members, form, k);
    if k in Keys(form) { UniqueLast(form, k); }
  }

  /** `updatePackageData`: each answer of the `package` form assigned in turn. */
  method UpdatePackageData(members: Fields, form: Fields) returns (fields: Fields)
    ensures fields == MergeFields(members, form)
  {
    fields := members;
    var i := 0;
    while i < |form|
      invariant 0 <= i <= |form|
      invariant fields == MergeFields(members, form[..i])
    {
      assert form[..i + 1][..i] == form[..i];
      fields := Put(fields, form[i].0, form[i].1);
      i := i + 1;
    }
    assert form[..i] == form;
  }

  /** `updateDependencies`: each chosen local dependency written into `devDependencies`. */
  method UpdateDependencies(pkg: Fields, local: seq<Dependency>) returns (r: Stage)
    ensures r == DevDependenciesStage(pkg, local)
  {
    var fields := pkg;
    var i := 0;
    while i < |local|
      invariant 0 <= i <= |local|
      invariant DevDependenciesStage(pkg, local[..i]) == Continue(fields)
    {
      var dep := local[i];
      DevDependenciesStep(pkg, local, i, fields);
      if dep.install {
        var devDependencies := Lookup(fields, "devDependencies");
        if devDependencies == None || devDependencies == Some(JNull) {
          DevDependenciesThrownStays(pkg, local, i + 1);
          return Thrown;
        }
        if devDependencies.value.JObj? {
          var d := devDependencies.value.members;
          fields := Put(fields, "devDependencies", JObj(Put(d, dep.package, JStr(dep.version))));
        }
      }
      i := i + 1;
    }
    assert local[..i] == local;
    return Continue(fields);
  }

  /** `updateScriptPostInstall`: the chosen global dependencies appended to the command. */
  method UpdateScriptPostInstall(pkg: Fields, global: seq<Dependency>) returns (r: Stage)
    ensures r == PostinstallStage(pkg, global)
  {
    var scripts := Lookup(pkg, "scripts");
    if scripts == None || scripts == Some(JNull) {
      return Thrown;
    }
    var postinstall := if Truthy(ExistingPostinstall(scripts.value)) then "" else "npm link";
    ghost var command := postinstall;
    var iter := 0;
    var i := 0;
    while i < |global|
      invariant 0 <= i <= |global|
      invariant iter == InstalledCount(global[..i])
      invariant postinstall == command + Spaced(InstalledSpecs(global[..i]))
    {
      PostinstallStep(global, i, command, postinstall, iter);
      var dep := global[i];
      if dep.install {
        postinstall := postinstall + " " + Spec(dep);
        iter := iter + 1;
      }
      i := i + 1;
    }
    assert global[..i] == global;
    PostinstallWritten(pkg, global, iter, postinstall);
    if iter > 0 && scripts.value.JObj? {
      return Continue(Put(pkg, "scripts", JObj(Put(scripts.value.members, "postinstall", JStr(postinstall)))));
    }
    return Continue(pkg);
  }

  /** What the handler does once the loop has counted and built the command. */
  lemma PostinstallWritten(pkg: Fields, global: seq<Dependency>, iter: nat, postinstall: string)
    requires !IsNullish(Lookup(pkg, "scripts"))
    requires iter == InstalledCount(global)
    requires postinstall
          == (if Truthy(ExistingPostinstall(Lookup(pkg, "scripts").value)) then "" else "npm link")
             + Spaced(InstalledSpecs(global))
    ensures
      var scripts := Lookup(pkg, "scripts").value;
      PostinstallStage(pkg, global)
      == if iter > 0 && scripts.JObj?
         then Continue(Put(pkg, "scripts", JObj(Put(scripts.members, "postinstall", JStr(postinstall)))))
         else Continue(pkg)
  {
  }

  /** The transform as the handler runs it. */
  method UpdatePackageJson(tool: ToolInfo, parsed: ParsedTemplate, form: Fields,
                           local: seq<Dependency>, global: seq<Dependency>) returns (r: PackageOutcome)
    ensures r == UpdatedPackage(tool, parsed, form, local, global)
  {
    if parsed.Unparseable? {
      return Rejected(ReinstallMessage(tool));
    }
    if !parsed.value.JObj? {
      return TypeError;
    }
    var fields := UpdatePackageData(parsed.value.members, form);
    var stage := UpdateDependencies(fields, local);
    if stage.Thrown? {
      return TypeError;
    }
    stage := UpdateScriptPostInstall(stage.fields, global);
    if stage.Thrown? {
      return TypeError;
    }
    return Written(JObj(stage.fields));
  }
}
