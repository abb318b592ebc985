/**
 * Concrete runs of `main`'s loop, stated on the iteration that follows the
 * model's reply: the prompt and the suggestion are parameters, so each
 * scenario holds whatever the issue and the rules are.
 */
module Scenarios {
  import opened Wrappers
  import opened Strings
  import opened Response
  import opened Confirm
  import opened Triage

  /** The reply made of one text block. */
  function TextReply(text: string): seq<ContentBlock> {
    [TextBlock(text)]
  }

  lemma TextReplyLabels(text: string)
    ensures ParseLabels(TextReply(text)) == ParseText(text)
  {
    assert ResponseText(TextReply(text)) == text + ResponseText([]);
    assert text + [] == text;
  }

  /**
   * A reply of `none`, however padded, means no labels: the issue is
   * reported as such, the operator is not asked, no label call is made and
   * no input is read.
   */
  lemma PaddedNoneReply(env: Env, k: nat, n: nat, prompt: string, lead: string, trail: string, input: seq<byte>)
    requires AllWhitespace(lead) && AllWhitespace(trail)
    ensures Handle(env, k, n, prompt, Some(ParseLabels(TextReply(lead + Sentinel + trail))), input)
      == StepResult([Queried(n, prompt), Reported(n, NoLabels)], input, None)
  {
    TextReplyLabels(lead + Sentinel + trail);
    ParseSentinel(lead, trail);
  }

  /**
   * A blank reply is not "no labels": without confirmation, `main` calls
   * `add_labels` with one empty label name.
   */
  lemma BlankReplyLabels(env: Env, k: nat, n: nat, prompt: string, text: string, input: seq<byte>)
    requires AllWhitespace(text) && !env.confirm
    requires env.addLabels(k, AddLabelsCall(env.owner, env.repo, n, [""]))
    ensures Handle(env, k, n, prompt, Some(ParseLabels(TextReply(text))), input)
      == StepResult([Queried(n, prompt), LabelsAdded(AddLabelsCall(env.owner, env.repo, n, [""])), Reported(n, Applied([""]))], input, None)
  {
    TextReplyLabels(text);
    ParseBlank(text);
  }

  /** A reply naming one label, without padding, labels the issue with it when confirmation is off. */
  lemma SingleLabelReply(env: Env, k: nat, n: nat, prompt: string, name: string, input: seq<byte>)
    requires IsTrimmed(name) && ',' !in name && name != Sentinel && !env.confirm
    requires env.addLabels(k, AddLabelsCall(env.owner, env.repo, n, [name]))
    ensures Handle(env, k, n, prompt, Some(ParseLabels(TextReply(name))), input)
      == StepResult([Queried(n, prompt), LabelsAdded(AddLabelsCall(env.owner, env.repo, n, [name])), Reported(n, Applied([name]))], input, None)
  {
    TextReplyLabels(name);
    ParseSingleLabel(name);
  }

  /** Two issues with suggestions, at positions 0 and 1, under confirmation. */
  function TwoIssues(env: Env, n1: nat, p1: string, l1: seq<string>, n2: nat, p2: string, l2: seq<string>): (nat, seq<byte>) -> StepResult {
    (k: nat, input: seq<byte>) =>
      if k == 0 then Handle(env, 0, n1, p1, Some(l1), input)
      else if k == 1 then Handle(env, 1, n2, p2, Some(l2), input)
      else StepResult([], input, None)
  }

  /**
   * Typing `y` and Enter at the first question labels the first issue; the
   * newline left in the input answers the second question, which skips the
   * second issue, and the run ends with the input used up and no failure.
   */
  lemma YesThenEnter(env: Env, n1: nat, p1: string, l1: seq<string>, n2: nat, p2: string, l2: seq<string>)
    requires env.confirm && l1 != [] && l2 != []
    requires env.addLabels(0, AddLabelsCall(env.owner, env.repo, n1, l1))
    ensures Loop(TwoIssues(env, n1, p1, l1, n2, p2, l2), 2, 0, [0x79, 0x0A]) == Run(
      [Queried(n1, p1), AskedOperator(n1, l1), LabelsAdded(AddLabelsCall(env.owner, env.repo, n1, l1)), Reported(n1, Applied(l1)),
       Queried(n2, p2), AskedOperator(n2, l2), Reported(n2, Skipped)],
      [], None, 2)
  {
    var step := TwoIssues(env, n1, p1, l1, n2, p2, l2);
    var call := AddLabelsCall(env.owner, env.repo, n1, l1);
    AnswerLeavesNewline([0x79, 0x0A]);
    assert step(0, [0x79, 0x0A]) == Handle(env, 0, n1, p1, Some(l1), [0x79, 0x0A])
      == StepResult([Queried(n1, p1), AskedOperator(n1, l1), LabelsAdded(call), Reported(n1, Applied(l1))], [0x0A], None);
    assert step(1, [0x0A]) == Handle(env, 1, n2, p2, Some(l2), [0x0A])
      == StepResult([Queried(n2, p2), AskedOperator(n2, l2), Reported(n2, Skipped)], [], None);
  }

  /**
   * Typing only `y`, with no newline, labels the first issue, and the
   * second question then finds the input exhausted: the run fails there.
   */
  lemma YesThenEnd(env: Env, n1: nat, p1: string, l1: seq<string>, n2: nat, p2: string, l2: seq<string>)
    requires env.confirm && l1 != [] && l2 != []
    requires env.addLabels(0, AddLabelsCall(env.owner, env.repo, n1, l1))
    ensures Loop(TwoIssues(env, n1, p1, l1, n2, p2, l2), 2, 0, [0x79]) == Run(
      [Queried(n1, p1), AskedOperator(n1, l1), LabelsAdded(AddLabelsCall(env.owner, env.repo, n1, l1)), Reported(n1, Applied(l1)),
       Queried(n2, p2), AskedOperator(n2, l2)],
      [], Some(ConfirmFailed(n2)), 2)
  {
    var step := TwoIssues(env, n1, p1, l1, n2, p2, l2);
    var call := AddLabelsCall(env.owner, env.repo, n1, l1);
    assert ReadAnswer([0x79]) == Answered(true, []);
    assert step(0, [0x79]) == Handle(env, 0, n1, p1, Some(l1), [0x79])
      == StepResult([Queried(n1, p1), AskedOperator(n1, l1), LabelsAdded(call), Reported(n1, Applied(l1))], [], None);
    assert step(1, []) == Handle(env, 1, n2, p2, Some(l2), [])
      == StepResult([Queried(n2, p2), AskedOperator(n2, l2)], [], Some(ConfirmFailed(n2)));
  }
}
