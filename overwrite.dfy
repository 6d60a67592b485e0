/**
 * The two `init` steps that sit around the template copy: `preventOverwritePath`,
 * which warns about files the copy would overwrite, and the `onDone` callback
 * of `mergeTemplateFiles`, which turns the copy's report into the step's outcome.
 * The comparison and the copy themselves belong to the `file-assistant` package
 * and arrive here as their results.
 */
module InitOverwrite {
  import opened Wrappers
  import opened Strings
  import opened Invocation

  /** What `fileAssistant.compare` reported: an error, or the entries that already exist. */
  datatype CompareOutcome = CompareFailed(message: string) | Compared(existing: seq<string>)

  const Header := "The installation directory contains some files that will be overwritten:\n"
  const Question := "Do you want to continue?"

  /** The end of a warning that lists every name. */
  const Closing := ".\n" + Question

  /** The end of a warning that leaves names out: how many, then the question. */
  function MoreTail(more: nat): string
  {
    ",\n...\nand " + NatToString(more) + " more. " + Question
  }

  function Quote(name: string): string
  {
    "'" + name + "'"
  }

  function QuotedNames(names: seq<string>): (r: seq<string>)
    ensures |r| == |names|
    ensures forall i :: 0 <= i < |names| ==> r[i] == Quote(names[i])
    decreases |names|
  {
    if names == [] then [] else QuotedNames(names[..|names| - 1]) + [Quote(names[|names| - 1])]
  }

  /**
   * The confirmation text: up to ten names joined by `,\n` and closed by `.\n`
   * and the question; from eleven names on, the first eleven and
   * `and <n - 10> more.`
   */
  function Warning(existing: seq<string>): string
    requires existing != []
  {
    if |existing| <= 10 then
      Header + Join(QuotedNames(existing), ",\n") + Closing
    else
      Header + Join(QuotedNames(existing[..11]), ",\n") + MoreTail(|existing| - 10)
  }

  /** Each listed name followed by `,\n`, as the loop leaves the text between two names. */
  function Listing(names: seq<string>): string
    decreases |names|
  {
    if names == [] then "" else Listing(names[..|names| - 1]) + Quote(names[|names| - 1]) + ",\n"
  }

  lemma {:induction false} ListingJoin(names: seq<string>, last: string)
    ensures Listing(names) + Quote(last) == Join(QuotedNames(names + [last]), ",\n")
    decreases |names|
  {
    if names == [] {
      assert QuotedNames([last]) == [Quote(last)];
    } else {
      var n := |names| - 1;
      var init := names[..n];
      ListingJoin(init, names[n]);
      assert init + [names[n]] == names;
      assert QuotedNames(names + [last]) == QuotedNames(names) + [Quote(last)];
      JoinSnoc(QuotedNames(names), Quote(last), ",\n");
    }
  }

  /** The text after the first `i` names, each followed by `,\n`. */
  function Partial(names: seq<string>, i: nat): string
    requires i <= |names|
  {
    Header + Listing(names[..i])
  }

  /** Before any name, the text is the header alone. */
  lemma PartialEmpty(names: seq<string>)
    ensures Partial(names, 0) == Header
  {
    assert names[..0] == [];
  }

  /** Appending the next name and its separator extends the listing by one name. */
  lemma ListingStep(names: seq<string>, i: nat, text: string)
    requires i < |names|
    requires text == Partial(names, i)
    ensures text + Quote(names[i]) + ",\n" == Partial(names, i + 1)
  {
    assert names[..i + 1][..i] == names[..i];
  }

  /** The name that closes the listing turns it into the joined list of the names so far. */
  lemma ListingClosed(names: seq<string>, k: nat, text: string, tail: string)
    requires k < |names|
    requires text == Header + Listing(names[..k])
    ensures text + Quote(names[k]) + tail == Header + Join(QuotedNames(names[..k + 1]), ",\n") + tail
  {
    ListingJoin(names[..k], names[k]);
    assert names[..k] + [names[k]] == names[..k + 1];
  }

  /** The eleventh name ends a long warning with the count of names left. */
  lemma LongListClosed(names: seq<string>, i: nat, text: string)
    requires i == 10 && i < |names|
    requires text == Partial(names, i)
    ensures text + Quote(names[i]) + MoreTail(|names| - i) == Warning(names)
  {
    ListingClosed(names, i, text, MoreTail(|names| - i));
  }

  /** The last name ends a short warning with the question. */
  lemma ShortListClosed(names: seq<string>, i: nat, text: string)
    requires i < 10 && i == |names| - 1
    requires text == Partial(names, i)
    ensures text + Quote(names[i]) + Closing == Warning(names)
  {
    ListingClosed(names, i, text, Closing);
    assert names[..i + 1] == names;
  }

  /** The warning builder inside `preventOverwritePath`: names appended one by one until the eleventh. */
  method BuildWarning(ex: seq<string>) returns (warnMessage: string)
    requires ex != []
    ensures warnMessage == Warning(ex)
  {
    var ln := |ex|;
    warnMessage := Header;
    var i := 0;
    PartialEmpty(ex);
    while i < ln
      invariant 0 <= i <= 10 && i < ln
      invariant warnMessage == Partial(ex, i)
      decreases ln - i
    {
      if i == 10 {
        LongListClosed(ex, i, warnMessage);
        warnMessage := warnMessage + Quote(ex[i]) + MoreTail(ln - i);
        break;
      }
      if i == ln - 1 {
        ShortListClosed(ex, i, warnMessage);
        warnMessage := warnMessage + Quote(ex[i]) + Closing;
        break;
      }
      ListingStep(ex, i, warnMessage);
      warnMessage := warnMessage + Quote(ex[i]) + ",\n";
      i := i + 1;
    }
  }

  /**
   * `preventOverwritePath`: a failed comparison aborts with its message; no
   * existing entries lets the command go on without a question; otherwise the
   * warning is shown and the answer decides.
   */
  method PreventOverwritePath(cmp: CompareOutcome, confirm: bool) returns (prompt: Option<string>, outcome: StepOutcome)
    ensures cmp.CompareFailed? ==> prompt == None && outcome == Abort(Some(cmp.message))
    ensures cmp.Compared? && cmp.existing == [] ==> prompt == None && outcome == Proceed
    ensures cmp.Compared? && cmp.existing != [] ==>
      prompt == Some(Warning(cmp.existing)) && (outcome == if confirm then Proceed else Abort(None))
  {
    if cmp.CompareFailed? {
      return None, Abort(Some(cmp.message));
    }
    if |cmp.existing| == 0 {
      return None, Proceed;
    }
    var warnMessage := BuildWarning(cmp.existing);
    prompt := Some(warnMessage);
    outcome := if confirm then Proceed else Abort(None);
  }

  /**
   * With exactly eleven names every one of them is listed, and the text still
   * announces one more: the count is `n - 10` where `n - 11` names are left out.
   */
  lemma ElevenNamesAllListed(existing: seq<string>)
    requires |existing| == 11
    ensures Warning(existing) == Header + Join(QuotedNames(existing), ",\n") + MoreTail(1)
  {
    assert existing[..11] == existing;
    assert NatToString(1) == "1";
  }

  /** What `fileAssistant` reports once the template is copied. */
  datatype ApplyReport = ApplyReport(error: bool, dirFailures: seq<string>, fileFailures: seq<string>)

  function MissingTemplateMessage(tool: ToolInfo): string
  {
    "Could not find some files in the " + tool.name + " package directory. Reinstall package and try again.\n"
      + "npm install -g " + tool.name
  }

  const ElementsFailedMessage := "Some elements could not be added. The initiation process was aborted."

  /**
   * `onDone` of `mergeTemplateFiles`: the command goes on exactly when the copy
   * reported no error and no failed folder or file.
   */
  function OnMergeDone(tool: ToolInfo, report: ApplyReport): (r: StepOutcome)
    ensures r.Proceed? <==> !report.error && report.dirFailures == [] && report.fileFailures == []
    ensures report.error ==> r == Abort(Some(MissingTemplateMessage(tool)))
    ensures !report.error && !r.Proceed? ==> r == Abort(Some(ElementsFailedMessage))
  {
    if report.error then Abort(Some(MissingTemplateMessage(tool)))
    else if |report.dirFailures| == 0 && |report.fileFailures| == 0 then Proceed
    else Abort(Some(ElementsFailedMessage))
  }
}
