/**
 * The checks and filters of the `init` form (`getFormData`): the two name
 * validators and the keywords filter. A validator returns `true` or the
 * messages of every failed rule, concatenated in rule order.
 */
module FormData {
  import opened Strings

  /** One entry of a validator's `rules` array: `{name, test, msg}`. */
  datatype Rule = Rule(name: string, test: bool, msg: string)

  /** A validator's return value: `true`, or the message to show. */
  datatype Verdict = Accepted | Refused(message: string)

  /** `for (i in rules) if (!rules[i].test) msg += rules[i].msg`. */
  function FailedMessages(rules: seq<Rule>): string
  {
    if rules == [] then ""
    else (if rules[0].test then "" else rules[0].msg) + FailedMessages(rules[1..])
  }

  /** `return msg.length ? msg : true`. */
  function Judge(rules: seq<Rule>): Verdict
  {
    var msg := FailedMessages(rules);
    if |msg| > 0 then Refused(msg) else Accepted
  }

  /** With no empty message, nothing is reported exactly when every rule passes. */
  lemma {:induction false} JudgeAccepts(rules: seq<Rule>)
    requires forall i :: 0 <= i < |rules| ==> rules[i].msg != ""
    ensures Judge(rules) == Accepted <==> forall i :: 0 <= i < |rules| ==> rules[i].test
    decreases |rules|
  {
    if rules != [] {
      JudgeAccepts(rules[1..]);
      assert forall i :: 0 <= i < |rules[1..]| ==> rules[1..][i] == rules[i + 1];
    }
  }

  /** The characters JavaScript's `.` does not match. */
  predicate IsLineTerminator(c: char)
  {
    c == '\n' || c == '\r' || c == '\U{2028}' || c == '\U{2029}'
  }

  /** `/^.{1,214}$/`. */
  predicate LengthTest(v: string)
  {
    1 <= |v| <= 214 && forall i :: 0 <= i < |v| ==> !IsLineTerminator(v[i])
  }

  predicate IsUpper(c: char) { 'A' <= c <= 'Z' }
  predicate IsLower(c: char) { 'a' <= c <= 'z' }
  predicate IsDigit(c: char) { '0' <= c <= '9' }

  /** `[a-z0-9_.-]`. */
  predicate ProjectNameChar(c: char)
  {
    IsLower(c) || IsDigit(c) || c == '_' || c == '.' || c == '-'
  }

  /** `[A-Za-z0-9$@_.-]`. */
  predicate ComponentNameChar(c: char)
  {
    IsUpper(c) || IsLower(c) || IsDigit(c) || c == '$' || c == '@' || c == '_' || c == '.' || c == '-'
  }

  const LengthMessage := "\nThe name must contain at least 1 and at most 214 characters."
  const UpperCaseMessage := "\nThe name cannot contain capital letters."
  const ProjectCharsMessage := "\nThe name must contain only url-safe characters [a-z0-9_-.]."
  const ProjectStartMessage := "\nThe name cannot begin with period or underscore."
  const ComponentCharsMessage := "\nThe name must contain only letters, numbers and the following chars: _.-$@"
  const ComponentStartMessage := "\nThe name cannot begin with a period."
  const ComponentEndMessage := "\nThe name cannot end with a period."

  function ProjectNameRules(v: string): seq<Rule>
  {
    [
      Rule("length", LengthTest(v), LengthMessage),
      Rule("upperCase", !(exists i :: 0 <= i < |v| && IsUpper(v[i])), UpperCaseMessage),
      Rule("chars", |v| >= 1 && forall i :: 0 <= i < |v| ==> ProjectNameChar(v[i]), ProjectCharsMessage),
      Rule("startWith", !(|v| >= 1 && (v[0] == '.' || v[0] == '_')), ProjectStartMessage)
    ]
  }

  function ComponentNameRules(v: string): seq<Rule>
  {
    [
      Rule("length", LengthTest(v), LengthMessage),
      Rule("chars", |v| >= 1 && forall i :: 0 <= i < |v| ==> ComponentNameChar(v[i]), ComponentCharsMessage),
      Rule("startWith", !(|v| >= 1 && v[0] == '.'), ComponentStartMessage),
      Rule("endWith", !(|v| >= 1 && v[|v| - 1] == '.'), ComponentEndMessage)
    ]
  }

  /**
   * `validateProjectName`: accepted exactly when the name has 1 to 214
   * characters, all from `[a-z0-9_.-]`, and does not begin with `.` or `_`.
   */
  function ValidateProjectName(v: string): (r: Verdict)
    ensures r == Accepted <==>
      1 <= |v| <= 214 && (forall i :: 0 <= i < |v| ==> ProjectNameChar(v[i])) && v[0] != '.' && v[0] != '_'
    ensures r.Refused? ==> r.message == FailedMessages(ProjectNameRules(v))
  {
    var rules := ProjectNameRules(v);
    JudgeAccepts(rules);
    assert (forall i :: 0 <= i < |rules| ==> rules[i].test) <==> rules[0].test && rules[1].test && rules[2].test && rules[3].test;
    assert (forall i :: 0 <= i < |v| ==> ProjectNameChar(v[i])) ==>
      (forall i :: 0 <= i < |v| ==> !IsLineTerminator(v[i]) && !IsUpper(v[i]));
    Judge(rules)
  }

  /**
   * `validateComponentName`: accepted exactly when the name has 1 to 214
   * characters, all from `[A-Za-z0-9$@_.-]`, and neither begins nor ends with `.`.
   */
  function ValidateComponentName(v: string): (r: Verdict)
    ensures r == Accepted <==>
      1 <= |v| <= 214 && (forall i :: 0 <= i < |v| ==> ComponentNameChar(v[i])) && v[0] != '.' && v[|v| - 1] != '.'
    ensures r.Refused? ==> r.message == FailedMessages(ComponentNameRules(v))
  {
    var rules := ComponentNameRules(v);
    JudgeAccepts(rules);
    assert (forall i :: 0 <= i < |rules| ==> rules[i].test) <==> rules[0].test && rules[1].test && rules[2].test && rules[3].test;
    assert (forall i :: 0 <= i < |v| ==> ComponentNameChar(v[i])) ==>
      (forall i :: 0 <= i < |v| ==> !IsLineTerminator(v[i]));
    Judge(rules)
  }

  /**
   * A capital letter always breaks two rules, so both of their messages are
   * shown, side by side, between those of the length and first-character rules.
   */
  lemma CapitalLetterReportedTwice(v: string, k: nat)
    requires k < |v| && IsUpper(v[k])
    ensures ValidateProjectName(v) == Refused(
      (if LengthTest(v) then "" else LengthMessage)
      + (UpperCaseMessage + (ProjectCharsMessage + (if v[0] == '.' || v[0] == '_' then ProjectStartMessage else ""))))
  {
    var rules := ProjectNameRules(v);
    assert !ProjectNameChar(v[k]);
    var after := if rules[3].test then "" else ProjectStartMessage;
    assert rules[4..] == [];
    assert FailedMessages(rules[3..]) == after + "";
    assert after + "" == after;
    assert FailedMessages(rules[2..]) == ProjectCharsMessage + after;
    assert FailedMessages(rules[1..]) == UpperCaseMessage + (ProjectCharsMessage + after);
    var msg := (if rules[0].test then "" else LengthMessage) + (UpperCaseMessage + (ProjectCharsMessage + after));
    assert FailedMessages(rules) == msg;
    assert |msg| > 0;
  }

  /** An empty name fails the length rule and the characters rule, and only those. */
  lemma EmptyProjectName()
    ensures ValidateProjectName("") == Refused(LengthMessage + ProjectCharsMessage)
  {
    var rules := ProjectNameRules("");
    assert FailedMessages(rules[2..]) == ProjectCharsMessage + FailedMessages(rules[3..]);
    assert FailedMessages(rules) == LengthMessage + ProjectCharsMessage;
  }

  /** A valid project name that does not end with a period is also a valid component name. */
  lemma ProjectNameIsComponentName(v: string)
    requires ValidateProjectName(v) == Accepted
    requires v[|v| - 1] != '.'
    ensures ValidateComponentName(v) == Accepted
  {
  }

  /** Array.prototype.filter((b) => b.length). */
  function NonEmpty(parts: seq<string>): (r: seq<string>)
    ensures forall i :: 0 <= i < |r| ==> r[i] != "" && r[i] in parts
  {
    if parts == [] then []
    else if parts[0] == "" then NonEmpty(parts[1..])
    else [parts[0]] + NonEmpty(parts[1..])
  }

  /** Filtering a concatenation filters each part, keeping their order. */
  lemma {:induction false} NonEmptyAppend(a: seq<string>, b: seq<string>)
    ensures NonEmpty(a + b) == NonEmpty(a) + NonEmpty(b)
    decreases |a|
  {
    if a == [] {
      assert a + b == b;
    } else {
      assert (a + b)[0] == a[0];
      assert (a + b)[1..] == a[1..] + b;
      NonEmptyAppend(a[1..], b);
    }
  }

  /** A single piece is kept exactly when it is not empty. */
  lemma NonEmptySingle(x: string)
    ensures NonEmpty([x]) == if x == "" then [] else [x]
  {
    assert [x][1..] == [];
  }

  /** Every non-empty piece of the input is kept, and nothing else. */
  lemma {:induction false} NonEmptyMembers(parts: seq<string>, w: string)
    ensures w in NonEmpty(parts) <==> w != "" && w in parts
    decreases |parts|
  {
    if parts != [] {
      NonEmptyMembers(parts[1..], w);
      assert parts == [parts[0]] + parts[1..];
    }
  }

  /** The keywords filter: `a.split(' ').filter((b) => b.length)`. */
  function Keywords(input: string): (r: seq<string>)
    ensures forall i :: 0 <= i < |r| ==> r[i] != "" && ' ' !in r[i]
  {
    NonEmpty(Split(input, ' '))
  }

  /** A keyword is exactly a non-empty piece of the input split on single spaces. */
  lemma KeywordsMembers(input: string, w: string)
    ensures w in Keywords(input) <==> w != "" && w in Split(input, ' ')
  {
    NonEmptyMembers(Split(input, ' '), w);
  }

  function Concat(parts: seq<string>): string
  {
    if parts == [] then "" else parts[0] + Concat(parts[1..])
  }

  function WithoutSpaces(s: string): string
  {
    if s == [] then "" else (if s[0] == ' ' then "" else [s[0]]) + WithoutSpaces(s[1..])
  }

  lemma {:induction false} ConcatNonEmpty(parts: seq<string>)
    ensures Concat(NonEmpty(parts)) == Concat(parts)
    decreases |parts|
  {
    if parts != [] {
      ConcatNonEmpty(parts[1..]);
    }
  }

  lemma {:induction false} ConcatSplit(s: string)
    ensures Concat(Split(s, ' ')) == WithoutSpaces(s)
    decreases |s|
  {
    if s != [] {
      ConcatSplit(s[1..]);
      var rest := Split(s[1..], ' ');
      if s[0] != ' ' {
        var parts := Split(s, ' ');
        assert parts == [[s[0]] + rest[0]] + rest[1..];
        assert parts[1..] == rest[1..];
        assert Concat(rest) == rest[0] + Concat(rest[1..]);
      }
    }
  }

  /** The keywords hold every non-space character of the input, in order, and nothing else. */
  lemma KeywordsKeepText(input: string)
    ensures Concat(Keywords(input)) == WithoutSpaces(input)
  {
    ConcatNonEmpty(Split(input, ' '));
    ConcatSplit(input);
  }
}
