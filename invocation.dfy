/** What every command receives from its caller and how one of its steps ends. */
module Invocation {
  import opened Wrappers
  import opened JsonValues

  /** Values the tool reads from its own package.json: `name` and the first key of `bin`. */
  datatype ToolInfo = ToolInfo(name: string, binCommand: string)

  /**
   * The arguments handed to a command: a list of positional arguments, an
   * object of flags (a missing flag reads as `undefined`), or anything else.
   */
  datatype CliArgs =
    | ArgList(items: seq<string>)
    | ArgFlags(flags: map<string, Json>)
    | ArgOther

  /** How one step of the command's chain of steps ends: `resolve()` or `reject(reason)`. */
  datatype StepOutcome = Proceed | Abort(reason: Option<string>)
}
