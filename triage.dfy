/**
 * The per-issue loop of `main`: for every unlabeled issue, in order, build
 * the prompt, ask the model, parse its reply, and either report that there
 * are no labels, ask the operator (when confirmation is on), and apply the
 * labels or report the issue as skipped.  Any failure of the model call, the
 * confirmation read or the label call ends the whole run at once.
 *
 * The model, the label call and standard input are parameters: `complete`
 * answers the prompt of the issue at a given position, `addLabels` says
 * whether the call for the issue at a given position succeeds, and the
 * input is the sequence of bytes the operator types.  The run records a
 * trace of what it does.
 */
module Triage {
  import opened Wrappers
  import opened Strings
  import opened Issues
  import opened Prompt
  import opened Response
  import opened Confirm

  datatype ModelReply = Reply(content: seq<ContentBlock>) | RequestFailed

  /** The arguments of one `add_labels` call. */
  datatype AddLabelsCall = AddLabelsCall(owner: string, repo: string, number: nat, labels: seq<string>)

  datatype Outcome = NoLabels | Applied(labels: seq<string>) | Skipped

  datatype Kind = Query | Ask | Add | Report

  /** What the run does, one entry per call to a collaborator or per reported outcome. */
  datatype Event =
    | Queried(number: nat, prompt: string)
    | AskedOperator(number: nat, labels: seq<string>)
    | LabelsAdded(call: AddLabelsCall)
    | Reported(number: nat, outcome: Outcome)
  {
    function Kind(): Kind {
      match this
      case Queried(_, _) => Query
      case AskedOperator(_, _) => Ask
      case LabelsAdded(_) => Add
      case Reported(_, _) => Report
    }

    function Number(): nat {
      match this
      case Queried(n, _) => n
      case AskedOperator(n, _) => n
      case LabelsAdded(c) => c.number
      case Reported(n, _) => n
    }
  }

  /** The error that stopped a run, with the number of the issue being handled. */
  datatype Failure = ModelFailed(number: nat) | ConfirmFailed(number: nat) | AddLabelsFailed(number: nat)

  /** The configuration and the collaborators of one run. */
  datatype Env = Env(
    owner: string,
    repo: string,
    rules: seq<LabelRule>,
    confirm: bool,
    complete: (nat, string) -> ModelReply,
    addLabels: (nat, AddLabelsCall) -> bool)

  /** The events of handling one issue, the input left, and the failure if one stopped it. */
  datatype StepResult = StepResult(events: seq<Event>, input: seq<byte>, failure: Option<Failure>)

  /**
   * The events of a run, the input left unread, the failure that stopped it
   * if any, and the position just after the last issue it started on.
   */
  datatype Run = Run(trace: seq<Event>, input: seq<byte>, failure: Option<Failure>, done: nat)

  /**
   * What the model suggests for the issue at position `k`: the labels parsed
   * from its reply, or nothing when the request fails.
   */
  function Suggestion(env: Env, k: nat, issue: Issue): Option<seq<string>> {
    match env.complete(k, PromptText(issue, env.rules))
    case Reply(content) => Some(ParseLabels(content))
    case RequestFailed => None
  }

  /** The request succeeded and the reply parsed to at least one label. */
  predicate Suggests(suggestion: Option<seq<string>>) {
    suggestion.Some? && suggestion.value != []
  }

  /** Handling the issue at position `k`: one iteration of the loop in `main`. */
  function Step(env: Env, k: nat, issue: Issue, input: seq<byte>): StepResult {
    Handle(env, k, issue.number, PromptText(issue, env.rules), Suggestion(env, k, issue), input)
  }

  /** The rest of the iteration for issue `n`, once the model has been sent `prompt` and has answered. */
  function Handle(env: Env, k: nat, n: nat, prompt: string, suggestion: Option<seq<string>>, input: seq<byte>): StepResult {
    var queried := [Queried(n, prompt)];
    match suggestion
    case None => StepResult(queried, input, Some(ModelFailed(n)))
    case Some(labels) =>
      if labels == [] then
        StepResult(queried + [Reported(n, NoLabels)], input, None)
      else if !env.confirm then
        Apply(env, k, n, labels, queried, input)
      else
        var asked := queried + [AskedOperator(n, labels)];
        match ReadAnswer(input)
        case ReadFailed => StepResult(asked, input, Some(ConfirmFailed(n)))
        case Answered(yes, rest) =>
          if yes then Apply(env, k, n, labels, asked, rest)
          else StepResult(asked + [Reported(n, Skipped)], rest, None)
  }

  /** The `label_issue` call for issue `n` and its report. */
  function Apply(env: Env, k: nat, n: nat, labels: seq<string>, before: seq<Event>, input: seq<byte>): StepResult {
    var call := AddLabelsCall(env.owner, env.repo, n, labels);
    var events := before + [LabelsAdded(call)];
    if env.addLabels(k, call) then StepResult(events + [Reported(n, Applied(labels))], input, None)
    else StepResult(events, input, Some(AddLabelsFailed(n)))
  }

  /**
   * The loop over positions `k` up to `n`, given the iteration as a function
   * of the position and of the input left: the iterations run one after the
   * other until one fails.  The run stops before `n` only on a failure.
   */
  function Loop(step: (nat, seq<byte>) -> StepResult, n: nat, k: nat, input: seq<byte>): (r: Run)
    requires k <= n
    ensures k <= r.done <= n
    ensures r.failure.None? ==> r.done == n
    ensures r.failure.Some? ==> k < r.done
    decreases n - k
  {
    if k == n then Run([], input, None, k)
    else
      var s := step(k, input);
      if s.failure.Some? then Run(s.events, s.input, s.failure, k + 1)
      else
        var r := Loop(step, n, k + 1, s.input);
        Run(s.events + r.trace, r.input, r.failure, r.done)
  }

  /**
   * The iteration of `main` over `issues`.  `Loop` only calls it at
   * positions inside the list; outside, it does nothing.
   */
  function Iteration(env: Env, issues: seq<Issue>): (nat, seq<byte>) -> StepResult {
    (k: nat, input: seq<byte>) => if k < |issues| then Step(env, k, issues[k], input) else StepResult([], input, None)
  }

  /** `main`'s loop over the listing: pull requests are filtered out first. */
  function TriageRun(env: Env, items: seq<Issue>, input: seq<byte>): Run {
    var issues := KeepIssues(items);
    Loop(Iteration(env, issues), |issues|, 0, input)
  }

  /** A run whose earlier events are `trace`. */
  function After(trace: seq<Event>, r: Run): Run {
    r.(trace := trace + r.trace)
  }

  /**
   * One more iteration of the loop: from the events so far, the iteration at
   * position `k` either stops the run or leaves the rest to do.
   */
  lemma RunAdvance(step: (nat, seq<byte>) -> StepResult, n: nat, k: nat, input: seq<byte>, trace: seq<Event>, s: StepResult)
    requires k < n && s == step(k, input)
    ensures s.failure.Some? ==> After(trace, Loop(step, n, k, input)) == Run(trace + s.events, s.input, s.failure, k + 1)
    ensures s.failure.None? ==> After(trace, Loop(step, n, k, input)) == After(trace + s.events, Loop(step, n, k + 1, s.input))
  {
    if s.failure.None? {
      var r := Loop(step, n, k + 1, s.input);
      assert trace + (s.events + r.trace) == (trace + s.events) + r.trace;
    }
  }

  /** The loop of `main`, over the issues `list_issues` returns for `items`. */
  method Triage(env: Env, items: seq<Issue>, stdin: seq<byte>) returns (run: Run)
    ensures run == TriageRun(env, items, stdin)
  {
    var issues := KeepIssues(items);
    ghost var step := Iteration(env, issues);
    var trace: seq<Event> := [];
    var input := stdin;
    var k := 0;
    assert After(trace, Loop(step, |issues|, k, input)) == Loop(step, |issues|, 0, stdin) by {
      assert [] + Loop(step, |issues|, 0, stdin).trace == Loop(step, |issues|, 0, stdin).trace;
    }
    while k < |issues|
      invariant k <= |issues|
      invariant After(trace, Loop(step, |issues|, k, input)) == Loop(step, |issues|, 0, stdin)
    {
      var s := HandleIssue(env, k, issues[k], input);
      RunAdvance(step, |issues|, k, input, trace, s);
      if s.failure.Some? {
        return Run(trace + s.events, s.input, s.failure, k + 1);
      }
      trace, input := trace + s.events, s.input;
      k := k + 1;
    }
    assert trace + [] == trace;
    run := Run(trace, input, None, k);
  }

  /** The body of the loop in `main` for the issue at position `k`. */
  method HandleIssue(env: Env, k: nat, issue: Issue, input: seq<byte>) returns (step: StepResult)
    ensures step == Step(env, k, issue, input)
  {
    var n := issue.number;
    var prompt := BuildPrompt(issue, env.rules);
    var events := [Queried(n, prompt)];
    var reply := env.complete(k, prompt);
    if reply.RequestFailed? {
      return StepResult(events, input, Some(ModelFailed(n)));
    }
    var labels := ParseLabels(reply.content);
    if labels == [] {
      return StepResult(events + [Reported(n, NoLabels)], input, None);
    }
    var approved, rest := true, input;
    if env.confirm {
      events := events + [AskedOperator(n, labels)];
      var answer := ReadAnswer(input);
      if answer.ReadFailed? {
        return StepResult(events, input, Some(ConfirmFailed(n)));
      }
      approved, rest := answer.yes, answer.rest;
    }
    if approved {
      var call := AddLabelsCall(env.owner, env.repo, n, labels);
      events := events + [LabelsAdded(call)];
      if !env.addLabels(k, call) {
        return StepResult(events, rest, Some(AddLabelsFailed(n)));
      }
      step := StepResult(events + [Reported(n, Applied(labels))], rest, None);
    } else {
      step := StepResult(events + [Reported(n, Skipped)], rest, None);
    }
  }

}
