/**
 * One iteration of the loop in `main`, read off its events: what it asks
 * the model, the operator and the repository host, what it reports, how
 * much input it reads and how it fails.  `StepSpec` collects these facts;
 * the run lemmas rely on nothing else about an iteration.
 */
module Steps {
  import opened Wrappers
  import opened Confirm
  import opened Triage

  /** The numbers of the events of one kind, in trace order. */
  function NumbersOf(trace: seq<Event>, kind: Kind): seq<nat> {
    if trace == [] then []
    else (if trace[0].Kind() == kind then [trace[0].Number()] else []) + NumbersOf(trace[1..], kind)
  }

  /** The model queries of a trace, in order. */
  function Queries(trace: seq<Event>): seq<Event> {
    if trace == [] then [] else (if trace[0].Queried? then [trace[0]] else []) + Queries(trace[1..])
  }

  /** The numbers in `asked` whose answer byte approves, pairing questions and answers in order. */
  function Approved(asked: seq<nat>, answers: seq<byte>): seq<nat> {
    if asked == [] || answers == [] then []
    else (if Approves(answers[0]) then [asked[0]] else []) + Approved(asked[1..], answers[1..])
  }

  /** The outcome reported for an issue that was handled without failure. */
  function OutcomeOf(env: Env, suggestion: Option<seq<string>>, input: seq<byte>): Outcome {
    if !Suggests(suggestion) then NoLabels
    else if !env.confirm || (input != [] && Approves(input[0])) then Applied(suggestion.value)
    else Skipped
  }

  predicate Distinct(xs: seq<nat>) {
    forall i, j :: 0 <= i < j < |xs| ==> xs[i] != xs[j]
  }

  lemma {:induction false} NumbersOfAppend(a: seq<Event>, b: seq<Event>, kind: Kind)
    ensures NumbersOf(a + b, kind) == NumbersOf(a, kind) + NumbersOf(b, kind)
  {
    if a == [] {
      assert a + b == b;
    } else {
      assert (a + b)[1..] == a[1..] + b;
      NumbersOfAppend(a[1..], b, kind);
    }
  }

  lemma {:induction false} QueriesAppend(a: seq<Event>, b: seq<Event>)
    ensures Queries(a + b) == Queries(a) + Queries(b)
  {
    if a == [] {
      assert a + b == b;
    } else {
      assert (a + b)[1..] == a[1..] + b;
      QueriesAppend(a[1..], b);
    }
  }

  lemma NumbersOfSingle(e: Event, kind: Kind)
    ensures NumbersOf([e], kind) == if e.Kind() == kind then [e.Number()] else []
    ensures Queries([e]) == if e.Queried? then [e] else []
  {
    assert [e][1..] == [];
  }

  /**
   * The events of one iteration, part by part: the query; the question to
   * the operator when confirmation is on and the reply suggests labels; the
   * label call when the reply suggests labels and either confirmation is off
   * or the next input byte approves; the report when nothing failed.
   */
  lemma HandleEvents(env: Env, k: nat, n: nat, prompt: string, suggestion: Option<seq<string>>, input: seq<byte>)
    ensures var s := Handle(env, k, n, prompt, suggestion, input);
      var w := Suggests(suggestion);
      var asks := w && env.confirm;
      var applies := w && (!env.confirm || (input != [] && Approves(input[0])));
      s.events == [Queried(n, prompt)]
        + (if asks then [AskedOperator(n, suggestion.value)] else [])
        + (if applies then [LabelsAdded(AddLabelsCall(env.owner, env.repo, n, suggestion.value))] else [])
        + (if s.failure.None? then [Reported(n, OutcomeOf(env, suggestion, input))] else [])
  {
  }

  /**
   * What one iteration leaves of the input and how it can fail: a byte is
   * read only when the operator is asked, and each failure names the issue
   * and happens exactly when its call fails.
   */
  lemma HandleOutcome(env: Env, k: nat, n: nat, prompt: string, suggestion: Option<seq<string>>, input: seq<byte>)
    ensures var s := Handle(env, k, n, prompt, suggestion, input);
      var asks := Suggests(suggestion) && env.confirm;
      var applies := Suggests(suggestion) && (!env.confirm || (input != [] && Approves(input[0])));
      && s.input == (if asks && input != [] then input[1..] else input)
      && (s.failure.Some? ==> s.failure.value.number == n)
      && (s.failure == Some(ModelFailed(n)) <==> suggestion.None?)
      && (s.failure == Some(ConfirmFailed(n)) <==> asks && input == [])
      && (s.failure == Some(AddLabelsFailed(n)) <==>
            applies && !env.addLabels(k, AddLabelsCall(env.owner, env.repo, n, suggestion.value)))
  {
  }

  lemma PartFacts(p: seq<Event>, kind: Kind)
    requires |p| <= 1
    ensures NumbersOf(p, kind) == if p != [] && p[0].Kind() == kind then [p[0].Number()] else []
    ensures Queries(p) == if p != [] && p[0].Queried? then p else []
  {
    if p != [] {
      assert p == [p[0]];
      NumbersOfSingle(p[0], kind);
    }
  }

  lemma PartsFacts(p0: seq<Event>, p1: seq<Event>, p2: seq<Event>, p3: seq<Event>, kind: Kind)
    ensures NumbersOf(p0 + p1 + p2 + p3, kind) == NumbersOf(p0, kind) + NumbersOf(p1, kind) + NumbersOf(p2, kind) + NumbersOf(p3, kind)
    ensures Queries(p0 + p1 + p2 + p3) == Queries(p0) + Queries(p1) + Queries(p2) + Queries(p3)
  {
    NumbersOfAppend(p0 + p1 + p2, p3, kind);
    NumbersOfAppend(p0 + p1, p2, kind);
    NumbersOfAppend(p0, p1, kind);
    QueriesAppend(p0 + p1 + p2, p3);
    QueriesAppend(p0 + p1, p2);
    QueriesAppend(p0, p1);
  }

  /** The projections of an iteration's events, given only the shape of each part. */
  lemma PartsTrace(n: nat, prompt: string, ask: seq<Event>, add: seq<Event>, report: seq<Event>, kind: Kind)
    requires |ask| <= 1 && (ask != [] ==> ask[0].AskedOperator? && ask[0].number == n)
    requires |add| <= 1 && (add != [] ==> add[0].LabelsAdded? && add[0].call.number == n)
    requires |report| <= 1 && (report != [] ==> report[0].Reported? && report[0].number == n)
    ensures Queries([Queried(n, prompt)] + ask + add + report) == [Queried(n, prompt)]
    ensures NumbersOf([Queried(n, prompt)] + ask + add + report, kind) ==
      (if kind == Query || (kind == Ask && ask != []) || (kind == Add && add != []) || (kind == Report && report != [])
       then [n] else [])
  {
    var q := [Queried(n, prompt)];
    PartsFacts(q, ask, add, report, kind);
    PartFacts(q, kind);
    PartFacts(ask, kind);
    PartFacts(add, kind);
    PartFacts(report, kind);
  }

  /** The trace of one iteration, projected: one query, and one ask, call or report when they happen. */
  lemma HandleTrace(env: Env, k: nat, n: nat, prompt: string, suggestion: Option<seq<string>>, input: seq<byte>, kind: Kind)
    ensures var s := Handle(env, k, n, prompt, suggestion, input);
      var asks := Suggests(suggestion) && env.confirm;
      var applies := Suggests(suggestion) && (!env.confirm || (input != [] && Approves(input[0])));
      && Queries(s.events) == [Queried(n, prompt)]
      && NumbersOf(s.events, kind) ==
           (if kind == Query || (kind == Ask && asks) || (kind == Add && applies) || (kind == Report && s.failure.None?)
            then [n] else [])
  {
    HandleEvents(env, k, n, prompt, suggestion, input);
    var s := Handle(env, k, n, prompt, suggestion, input);
    var asks := Suggests(suggestion) && env.confirm;
    var applies := Suggests(suggestion) && (!env.confirm || (input != [] && Approves(input[0])));
    var p1 := if asks then [AskedOperator(n, suggestion.value)] else [];
    var p2 := if applies then [LabelsAdded(AddLabelsCall(env.owner, env.repo, n, suggestion.value))] else [];
    var p3 := if s.failure.None? then [Reported(n, OutcomeOf(env, suggestion, input))] else [];
    PartsTrace(n, prompt, p1, p2, p3, kind);
  }

  /** The label call of one iteration, if any, is for the suggested labels; a failure ends with the failed call. */
  lemma HandleCalls(env: Env, k: nat, n: nat, prompt: string, suggestion: Option<seq<string>>, input: seq<byte>)
    ensures var s := Handle(env, k, n, prompt, suggestion, input);
      var asks := Suggests(suggestion) && env.confirm;
      var applies := Suggests(suggestion) && (!env.confirm || (input != [] && Approves(input[0])));
      var last := if applies then LabelsAdded(AddLabelsCall(env.owner, env.repo, n, suggestion.value))
        else if asks then AskedOperator(n, suggestion.value)
        else Queried(n, prompt);
      && (forall e :: e in s.events && e.LabelsAdded? ==>
            Suggests(suggestion) && e.call == AddLabelsCall(env.owner, env.repo, n, suggestion.value))
      && (s.failure.Some? ==> s.events[|s.events| - 1] == last)
  {
    HandleEvents(env, k, n, prompt, suggestion, input);
  }

  /**
   * How a run that failed with `failure` at issue `n` ends: right after the
   * call that failed, which is the model request, the read of the
   * operator's answer (with the input `left` exhausted), or the label call.
   */
  predicate FailedAt(env: Env, j: nat, n: nat, suggestion: Option<seq<string>>,
                     failure: Failure, left: seq<byte>, trace: seq<Event>)
  {
    && trace != [] && failure.number == n
    && (failure.ModelFailed? ==> suggestion.None? && trace[|trace| - 1].Queried? && trace[|trace| - 1].number == n)
    && (failure.ConfirmFailed? ==>
          env.confirm && Suggests(suggestion) && left == [] && trace[|trace| - 1] == AskedOperator(n, suggestion.value))
    && (failure.AddLabelsFailed? ==>
          Suggests(suggestion)
          && var call := AddLabelsCall(env.owner, env.repo, n, suggestion.value);
             !env.addLabels(j, call) && trace[|trace| - 1] == LabelsAdded(call))
  }

  lemma HandleFailure(env: Env, k: nat, n: nat, prompt: string, suggestion: Option<seq<string>>, input: seq<byte>)
    ensures var s := Handle(env, k, n, prompt, suggestion, input);
      s.failure.Some? ==> FailedAt(env, k, n, suggestion, s.failure.value, s.input, s.events)
  {
    HandleOutcome(env, k, n, prompt, suggestion, input);
    HandleCalls(env, k, n, prompt, suggestion, input);
  }

  /**
   * What one iteration for issue `n` at position `k` does, given the prompt
   * and what the model suggests: one query; a question exactly when the
   * reply suggests labels and confirmation is on; a label call exactly when
   * it suggests labels and confirmation is off or the byte read approves;
   * a report exactly when nothing failed; one byte read per question; and
   * a failure only right after the call that failed.
   */
  ghost predicate StepSpec(env: Env, k: nat, n: nat, prompt: string, suggestion: Option<seq<string>>, input: seq<byte>, s: StepResult) {
    var asks := Suggests(suggestion) && env.confirm;
    var applies := Suggests(suggestion) && (!env.confirm || (input != [] && Approves(input[0])));
    && Queries(s.events) == [Queried(n, prompt)]
    && NumbersOf(s.events, Ask) == (if asks then [n] else [])
    && NumbersOf(s.events, Add) == (if applies then [n] else [])
    && NumbersOf(s.events, Report) == (if s.failure.None? then [n] else [])
    && s.input == (if asks && input != [] then input[1..] else input)
    && (s.failure.None? && asks ==> input != [])
    && (forall e :: e in s.events && e.LabelsAdded? ==>
          Suggests(suggestion) && e.call == AddLabelsCall(env.owner, env.repo, n, suggestion.value))
    && (s.failure.Some? ==> FailedAt(env, k, n, suggestion, s.failure.value, s.input, s.events))
  }

  /** `Handle` meets `StepSpec`. */
  lemma HandleSpec(env: Env, k: nat, n: nat, prompt: string, suggestion: Option<seq<string>>, input: seq<byte>)
    ensures StepSpec(env, k, n, prompt, suggestion, input, Handle(env, k, n, prompt, suggestion, input))
  {
    HandleTrace(env, k, n, prompt, suggestion, input, Ask);
    HandleTrace(env, k, n, prompt, suggestion, input, Add);
    HandleTrace(env, k, n, prompt, suggestion, input, Report);
    HandleOutcome(env, k, n, prompt, suggestion, input);
    HandleCalls(env, k, n, prompt, suggestion, input);
    HandleFailure(env, k, n, prompt, suggestion, input);
  }

  /**
   * With confirmation, an iteration that meets `StepSpec` reads at most one
   * byte, and applies the labels exactly when it asked and that byte
   * approves.
   */
  lemma SpecAnswers(env: Env, k: nat, n: nat, prompt: string, suggestion: Option<seq<string>>, input: seq<byte>, s: StepResult)
    requires env.confirm && StepSpec(env, k, n, prompt, suggestion, input, s)
    ensures var used := |input| - |s.input|;
      && 0 <= used <= |input| && s.input == input[used..]
      && NumbersOf(s.events, Add) == Approved(NumbersOf(s.events, Ask), input[..used])
      && (s.failure.None? ==> used == |NumbersOf(s.events, Ask)|)
  {
    if Suggests(suggestion) && input != [] {
      assert input[..1] == [input[0]];
      assert Approved([n], [input[0]]) == (if Approves(input[0]) then [n] else []) + Approved([], []);
    }
  }
}
