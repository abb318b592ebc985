/**
 * The loop of `main` over a listing, in the listing's own terms: the run
 * lemmas applied to the issues `list_issues` keeps, each with the prompt
 * `build_prompt` makes for it and the labels `ask_claude` parses from the
 * model's reply.
 */
module MainLoop {
  import opened Wrappers
  import opened Strings
  import opened Issues
  import opened Prompt
  import opened Response
  import opened Confirm
  import opened Triage
  import opened Steps
  import opened Runs

  /** The jobs of `main`'s loop over `issues`: each issue's number, its prompt and the model's suggestion. */
  function Jobs(env: Env, issues: seq<Issue>): seq<Job> {
    seq(|issues|, k requires 0 <= k < |issues| => Job(issues[k].number, PromptText(issues[k], env.rules), Suggestion(env, k, issues[k])))
  }

  /** The numbers of `issues`, in order. */
  function IssueNumbers(issues: seq<Issue>): seq<nat> {
    if issues == [] then [] else [issues[0].number] + IssueNumbers(issues[1..])
  }

  /** One query per issue, in order, each with the issue's prompt. */
  function IssueQueries(rules: seq<LabelRule>, issues: seq<Issue>): seq<Event> {
    if issues == [] then [] else [Queried(issues[0].number, PromptText(issues[0], rules))] + IssueQueries(rules, issues[1..])
  }

  /** The iteration of `main` meets `StepSpec` for every issue of the list. */
  lemma IterationFollows(env: Env, issues: seq<Issue>)
    ensures Follows(env, Jobs(env, issues), Iteration(env, issues))
  {
    var jobs := Jobs(env, issues);
    forall k: nat, input: seq<byte> ensures StepOk(env, jobs, Iteration(env, issues), k, input) {
      if k < |issues| {
        assert Iteration(env, issues)(k, input) == Step(env, k, issues[k], input);
        HandleSpec(env, k, issues[k].number, PromptText(issues[k], env.rules), Suggestion(env, k, issues[k]), input);
      }
    }
  }

  /** The jobs of a stretch of the list carry the numbers of its issues. */
  lemma {:induction false} JobsNumbers(env: Env, issues: seq<Issue>, a: nat, b: nat)
    requires a <= b <= |issues|
    ensures Numbers(Jobs(env, issues)[a..b]) == IssueNumbers(issues[a..b])
    decreases b - a
  {
    if a < b {
      JobsNumbers(env, issues, a + 1, b);
      SliceCons(Jobs(env, issues), a, b);
      assert issues[a..b][0] == issues[a] && issues[a..b][1..] == issues[a + 1..b];
    }
  }

  /** The jobs of a stretch of the list carry the prompts of its issues. */
  lemma {:induction false} JobsQueries(env: Env, issues: seq<Issue>, a: nat, b: nat)
    requires a <= b <= |issues|
    ensures QueriesFor(Jobs(env, issues)[a..b]) == IssueQueries(env.rules, issues[a..b])
    decreases b - a
  {
    if a < b {
      JobsQueries(env, issues, a + 1, b);
      SliceCons(Jobs(env, issues), a, b);
      assert issues[a..b][0] == issues[a] && issues[a..b][1..] == issues[a + 1..b];
    }
  }

  /** A query names an issue of the list, with its prompt. */
  lemma {:induction false} IssueQueriesIn(rules: seq<LabelRule>, issues: seq<Issue>, e: Event)
    requires e in IssueQueries(rules, issues)
    ensures exists i :: i in issues && e == Queried(i.number, PromptText(i, rules))
  {
    if e != Queried(issues[0].number, PromptText(issues[0], rules)) {
      IssueQueriesIn(rules, issues[1..], e);
      var i :| i in issues[1..] && e == Queried(i.number, PromptText(i, rules));
      assert i in issues;
    }
  }

  /**
   * `main` sends the model one query per listed issue that is not a pull
   * request, in listing order, with that issue's prompt, up to the issue
   * that failed, and to all of them when nothing failed; it never queries
   * for a pull request.
   */
  lemma TriageQueries(env: Env, items: seq<Issue>, input: seq<byte>)
    ensures var r := TriageRun(env, items, input);
      var issues := KeepIssues(items);
      && r.done <= |issues|
      && Queries(r.trace) == IssueQueries(env.rules, issues[..r.done])
      && (r.failure.None? ==> r.done == |issues|)
      && forall e :: e in Queries(r.trace) ==>
           exists i :: i in items && !i.isPullRequest && e == Queried(i.number, PromptText(i, env.rules))
  {
    var issues := KeepIssues(items);
    var r := TriageRun(env, items, input);
    IterationFollows(env, issues);
    RunQueries(env, Jobs(env, issues), Iteration(env, issues), 0, input);
    JobsQueries(env, issues, 0, r.done);
    assert issues[0..r.done] == issues[..r.done];
    forall e | e in Queries(r.trace)
      ensures exists i :: i in items && !i.isPullRequest && e == Queried(i.number, PromptText(i, env.rules))
    {
      IssueQueriesIn(env.rules, issues[..r.done], e);
      var i :| i in issues[..r.done] && e == Queried(i.number, PromptText(i, env.rules));
      assert i in issues;
    }
  }

  /**
   * `main` reports an outcome for every issue it finished, in listing order,
   * and for no other: when a call fails, the issue it failed on gets no
   * report and no later issue is handled.
   */
  lemma TriageReports(env: Env, items: seq<Issue>, input: seq<byte>)
    ensures var r := TriageRun(env, items, input);
      var issues := KeepIssues(items);
      && Completed(r) <= |issues|
      && NumbersOf(r.trace, Report) == IssueNumbers(issues[..Completed(r)])
      && (r.failure.None? ==> Completed(r) == |issues|)
      && (r.failure.Some? ==> Completed(r) == r.done - 1)
  {
    var issues := KeepIssues(items);
    var r := TriageRun(env, items, input);
    IterationFollows(env, issues);
    RunReports(env, Jobs(env, issues), Iteration(env, issues), 0, input);
    JobsNumbers(env, issues, 0, Completed(r));
    assert issues[0..Completed(r)] == issues[..Completed(r)];
  }

  /**
   * With confirmation on, `main` asks the operator about exactly the issues
   * for which the model suggests labels (the jobs whose suggestion holds a
   * label), in order; with it off, it never asks, reads no input, and labels
   * exactly those issues.
   */
  lemma TriageAsks(env: Env, items: seq<Issue>, input: seq<byte>)
    ensures var r := TriageRun(env, items, input);
      var issues := KeepIssues(items);
      && NumbersOf(r.trace, Ask) == (if env.confirm then WantedNumbers(Jobs(env, issues), 0, r.done) else [])
      && (!env.confirm ==> r.input == input && NumbersOf(r.trace, Add) == WantedNumbers(Jobs(env, issues), 0, r.done))
  {
    var issues := KeepIssues(items);
    var r := TriageRun(env, items, input);
    IterationFollows(env, issues);
    RunAsks(env, Jobs(env, issues), Iteration(env, issues), 0, input);
    if !env.confirm {
      RunWithoutConfirm(env, Jobs(env, issues), Iteration(env, issues), 0, input);
    }
  }

  /**
   * With confirmation on, `main` reads one byte per question, in order, and
   * labels exactly the issues whose byte is `y` or `Y`; what it has not read
   * is left.  A run that does not fail reads exactly as many bytes as it
   * asks questions.
   */
  lemma TriageAnswers(env: Env, items: seq<Issue>, input: seq<byte>)
    requires env.confirm
    ensures var r := TriageRun(env, items, input);
      var used := |input| - |r.input|;
      && 0 <= used <= |input| && r.input == input[used..]
      && NumbersOf(r.trace, Add) == Approved(NumbersOf(r.trace, Ask), input[..used])
      && (r.failure.None? ==> used == |NumbersOf(r.trace, Ask)|)
  {
    var issues := KeepIssues(items);
    IterationFollows(env, issues);
    RunWithConfirm(env, Jobs(env, issues), Iteration(env, issues), 0, input);
  }

  /**
   * `call` is for one of the first `done` issues, with exactly the labels the
   * model suggested for that issue.
   */
  predicate SuggestedCall(env: Env, issues: seq<Issue>, done: nat, call: AddLabelsCall) {
    exists j :: 0 <= j < done && j < |issues| && call.number == issues[j].number && Suggestion(env, j, issues[j]) == Some(call.labels)
  }

  /**
   * Every label call of `main` goes to the configured repository, for a
   * listed issue that is not a pull request and that the run reached, with
   * exactly the labels the model suggested for that issue: never none,
   * never the sentinel, each trimmed and comma-free.
   */
  lemma TriageCalls(env: Env, items: seq<Issue>, input: seq<byte>)
    ensures var r := TriageRun(env, items, input);
      forall e :: e in r.trace && e.LabelsAdded? ==>
        && e.call.owner == env.owner && e.call.repo == env.repo
        && e.call.labels != [] && Sentinel !in e.call.labels
        && (forall l :: l in e.call.labels ==> IsTrimmed(l) && ',' !in l)
        && SuggestedCall(env, KeepIssues(items), r.done, e.call)
        && exists i :: i in items && !i.isPullRequest && e.call.number == i.number
  {
    var issues := KeepIssues(items);
    var jobs := Jobs(env, issues);
    var r := TriageRun(env, items, input);
    IterationFollows(env, issues);
    RunCalls(env, jobs, Iteration(env, issues), 0, input);
    forall e | e in r.trace && e.LabelsAdded?
      ensures Sentinel !in e.call.labels && forall l :: l in e.call.labels ==> IsTrimmed(l) && ',' !in l
      ensures SuggestedCall(env, issues, r.done, e.call)
      ensures exists i :: i in items && !i.isPullRequest && e.call.number == i.number
    {
      var j :| 0 <= j < r.done && e.call.number == jobs[j].number && jobs[j].suggestion == Some(e.call.labels);
      assert jobs[j].suggestion == Suggestion(env, j, issues[j]);
      SuggestionShape(env, j, issues[j]);
      assert issues[j] in issues;
    }
  }

  /** When the listing's numbers are distinct, `main` labels no issue twice. */
  lemma TriageAddsOnce(env: Env, items: seq<Issue>, input: seq<byte>)
    requires Distinct(IssueNumbers(items))
    ensures Distinct(NumbersOf(TriageRun(env, items, input).trace, Add))
  {
    var issues := KeepIssues(items);
    var jobs := Jobs(env, issues);
    IterationFollows(env, issues);
    RunAddsOnce(env, jobs, Iteration(env, issues), 0, input);
    JobsNumbers(env, issues, 0, |issues|);
    KeepIssuesNumbers(items);
    assert jobs[0..] == jobs[0..|issues|] && issues[0..|issues|] == issues;
  }

  /**
   * A failure ends `main` at the issue it names, right after the call that
   * failed: the model request (the reply never came), the read of the
   * operator's answer (the input was exhausted), or the label call.
   */
  lemma TriageFailure(env: Env, items: seq<Issue>, input: seq<byte>)
    ensures var r := TriageRun(env, items, input);
      var issues := KeepIssues(items);
      r.failure.Some? ==>
        var j := r.done - 1;
        0 <= j < |issues| && FailedAt(env, j, issues[j].number, Suggestion(env, j, issues[j]), r.failure.value, r.input, r.trace)
  {
    var issues := KeepIssues(items);
    IterationFollows(env, issues);
    RunFailure(env, Jobs(env, issues), Iteration(env, issues), 0, input);
  }

  /** What the model suggests is never the sentinel, and each label is trimmed and comma-free. */
  lemma SuggestionShape(env: Env, k: nat, issue: Issue)
    ensures var suggestion := Suggestion(env, k, issue);
      suggestion.Some? ==>
        Sentinel !in suggestion.value
        && forall l :: l in suggestion.value ==> IsTrimmed(l) && ',' !in l
  {
    var reply := env.complete(k, PromptText(issue, env.rules));
    if reply.Reply? {
      ParseTextBounds(ResponseText(reply.content));
      ParseTextLabels(ResponseText(reply.content));
    }
  }

  /** Filtering keeps only numbers of the listing, and keeps them distinct. */
  lemma {:induction false} KeepIssuesNumbers(items: seq<Issue>)
    ensures forall x :: x in IssueNumbers(KeepIssues(items)) ==> x in IssueNumbers(items)
    ensures Distinct(IssueNumbers(items)) ==> Distinct(IssueNumbers(KeepIssues(items)))
  {
    if items != [] {
      var rest := KeepIssues(items[1..]);
      KeepIssuesNumbers(items[1..]);
      DistinctCons(items[0].number, IssueNumbers(items[1..]));
      if !items[0].isPullRequest {
        assert KeepIssues(items) == [items[0]] + rest;
        assert ([items[0]] + rest)[1..] == rest;
        DistinctCons(items[0].number, IssueNumbers(rest));
      } else {
        assert KeepIssues(items) == rest;
      }
    }
  }
}
