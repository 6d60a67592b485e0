/**
 * The optional dependencies offered by `init` (`defineAdditionalDependencies`)
 * and the step that records the user's choices in them (`setDependenciesInstall`).
 */
module Dependencies {

  datatype Dependency = Dependency(name: string, package: string, version: string, description: string, install: bool)

  /** `formData.dependencies[name]`; an unanswered question reads as `undefined`, which is falsy. */
  function Answer(answers: map<string, bool>, name: string): bool
  {
    if name in answers then answers[name] else false
  }

  const DefaultLocal: seq<Dependency> := [
    Dependency("jquery", "jquery", "^3.2.1", "jquery", false),
    Dependency("jqueryUI", "webpack-jquery-ui", "^1.0.0", "jquery UI", false),
    Dependency("bootstrap", "webpack-bootstrap-installer", "^1.0.0", "Bootstrap 3", false)
  ]

  const DefaultGlobal: seq<Dependency> := [
    Dependency("icons", "webpack-icons-installer", "^1.0.0",
      "Bootstrap Glyphicons, Google material-design-icons and font-awesome icons", false)
  ]

  /** `this.data.dependencies`: the `local` and `global` lists, whose records the steps update in place. */
  class DependencyTable {
    var local: seq<Dependency>
    var global: seq<Dependency>

    /** `defineAdditionalDependencies`: the fixed table, nothing chosen yet. */
    constructor ()
      ensures local == DefaultLocal && global == DefaultGlobal
      ensures forall i :: 0 <= i < |local| ==> !local[i].install
      ensures forall i :: 0 <= i < |global| ==> !global[i].install
    {
      local := DefaultLocal;
      global := DefaultGlobal;
    }

    /**
     * `setDependenciesInstall`: every dependency, local then global, takes the
     * user's answer as its `install` flag; nothing else in the table changes.
     */
    method SetDependenciesInstall(answers: map<string, bool>)
      modifies this
      ensures |local| == |old(local)| && |global| == |old(global)|
      ensures forall i :: 0 <= i < |local| ==>
        local[i] == old(local)[i].(install := Answer(answers, old(local)[i].name))
      ensures forall i :: 0 <= i < |global| ==>
        global[i] == old(global)[i].(install := Answer(answers, old(global)[i].name))
    {
      var i := 0;
      while i < |local|
        invariant 0 <= i <= |local| == |old(local)|
        invariant global == old(global)
        invariant forall j :: 0 <= j < i ==> local[j] == old(local)[j].(install := Answer(answers, old(local)[j].name))
        invariant forall j :: i <= j < |local| ==> local[j] == old(local)[j]
      {
        local := local[i := local[i].(install := Answer(answers, local[i].name))];
        i := i + 1;
      }
      i := 0;
      while i < |global|
        invariant 0 <= i <= |global| == |old(global)|
        invariant |local| == |old(local)|
        invariant forall j :: 0 <= j < |local| ==> local[j] == old(local)[j].(install := Answer(answers, old(local)[j].name))
        invariant forall j :: 0 <= j < i ==> global[j] == old(global)[j].(install := Answer(answers, old(global)[j].name))
        invariant forall j :: i <= j < |global| ==> global[j] == old(global)[j]
      {
        global := global[i := global[i].(install := Answer(answers, global[i].name))];
        i := i + 1;
      }
    }
  }
}
