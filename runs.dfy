/**
 * What a run of the loop does, read off its trace: which issues are sent to
 * the model and with which prompt, which ones the operator is asked about,
 * which ones get labels and with which arguments, and how a failure ends
 * the run.  The lemmas hold for any iteration that meets `StepSpec` for
 * every job: they need to know of each issue only its number, its prompt
 * and what the model suggests for it.
 */
module Runs {
  import opened Wrappers
  import opened Confirm
  import opened Triage
  import opened Steps

  /** What the loop needs to know about one issue: its number, its prompt and what the model suggests. */
  datatype Job = Job(number: nat, prompt: string, suggestion: Option<seq<string>>)

  /** The iteration of `step` at position `k` meets `StepSpec`, when `k` is inside the list. */
  ghost predicate StepOk(env: Env, jobs: seq<Job>, step: (nat, seq<byte>) -> StepResult, k: nat, input: seq<byte>) {
    k < |jobs| ==> StepSpec(env, k, jobs[k].number, jobs[k].prompt, jobs[k].suggestion, input, step(k, input))
  }

  /** Every iteration of `step` over `jobs` meets `StepSpec`. */
  ghost predicate Follows(env: Env, jobs: seq<Job>, step: (nat, seq<byte>) -> StepResult) {
    forall k: nat, input: seq<byte> :: StepOk(env, jobs, step, k, input)
  }

  /** The numbers of `jobs`, in order. */
  function Numbers(jobs: seq<Job>): seq<nat> {
    if jobs == [] then [] else [jobs[0].number] + Numbers(jobs[1..])
  }

  /** One query per job, in order, each with the job's prompt. */
  function QueriesFor(jobs: seq<Job>): seq<Event> {
    if jobs == [] then [] else [Queried(jobs[0].number, jobs[0].prompt)] + QueriesFor(jobs[1..])
  }

  /** The numbers of the jobs in `jobs[k..end]` for which the model suggests labels. */
  function WantedNumbers(jobs: seq<Job>, k: nat, end: nat): seq<nat>
    requires k <= end <= |jobs|
    decreases end - k
  {
    if k == end then []
    else (if Suggests(jobs[k].suggestion) then [jobs[k].number] else []) + WantedNumbers(jobs, k + 1, end)
  }

  /** The position just after the last issue the run finished without failure. */
  function Completed(r: Run): nat {
    if r.failure.Some? && r.done > 0 then r.done - 1 else r.done
  }

  lemma SliceCons(jobs: seq<Job>, k: nat, end: nat)
    requires k < end <= |jobs|
    ensures Numbers(jobs[k..end]) == [jobs[k].number] + Numbers(jobs[k + 1..end])
    ensures QueriesFor(jobs[k..end]) == [Queried(jobs[k].number, jobs[k].prompt)] + QueriesFor(jobs[k + 1..end])
  {
    assert jobs[k..end][0] == jobs[k];
    assert jobs[k..end][1..] == jobs[k + 1..end];
  }

  /** `Loop` at a position before the end, one iteration unfolded. */
  lemma LoopUnfold(step: (nat, seq<byte>) -> StepResult, n: nat, k: nat, input: seq<byte>)
    requires k < n
    ensures var s := step(k, input);
      var r := Loop(step, n, k, input);
      if s.failure.Some? then r == Run(s.events, s.input, s.failure, k + 1)
      else
        var rest := Loop(step, n, k + 1, s.input);
        r == Run(s.events + rest.trace, rest.input, rest.failure, rest.done)
  {
  }

  /** The iteration at position `k` meets `StepSpec`. */
  lemma StepAt(env: Env, jobs: seq<Job>, step: (nat, seq<byte>) -> StepResult, k: nat, input: seq<byte>)
    requires k < |jobs| && Follows(env, jobs, step)
    ensures StepSpec(env, k, jobs[k].number, jobs[k].prompt, jobs[k].suggestion, input, step(k, input))
  {
    assert StepOk(env, jobs, step, k, input);
  }

  /** The iteration at `k` queries the model once, with the issue's prompt. */
  lemma StepQueried(env: Env, jobs: seq<Job>, step: (nat, seq<byte>) -> StepResult, k: nat, input: seq<byte>)
    requires k < |jobs| && Follows(env, jobs, step)
    ensures Queries(step(k, input).events) == [Queried(jobs[k].number, jobs[k].prompt)]
  {
    StepAt(env, jobs, step, k, input);
  }

  /** The iteration at `k` asks the operator exactly when there are labels and confirmation is on. */
  lemma StepAsked(env: Env, jobs: seq<Job>, step: (nat, seq<byte>) -> StepResult, k: nat, input: seq<byte>)
    requires k < |jobs| && Follows(env, jobs, step)
    ensures NumbersOf(step(k, input).events, Ask) == if Suggests(jobs[k].suggestion) && env.confirm then [jobs[k].number] else []
  {
    StepAt(env, jobs, step, k, input);
  }

  /** Without confirmation, the iteration at `k` reads nothing and calls for labels exactly when there are some. */
  lemma StepAdded(env: Env, jobs: seq<Job>, step: (nat, seq<byte>) -> StepResult, k: nat, input: seq<byte>)
    requires k < |jobs| && Follows(env, jobs, step) && !env.confirm
    ensures NumbersOf(step(k, input).events, Add) == if Suggests(jobs[k].suggestion) then [jobs[k].number] else []
    ensures step(k, input).input == input
  {
    StepAt(env, jobs, step, k, input);
  }

  /** The iteration at `k` calls for labels at most once, for its own issue. */
  lemma StepAddsOwn(env: Env, jobs: seq<Job>, step: (nat, seq<byte>) -> StepResult, k: nat, input: seq<byte>)
    requires k < |jobs| && Follows(env, jobs, step)
    ensures NumbersOf(step(k, input).events, Add) in {[], [jobs[k].number]}
  {
    StepAt(env, jobs, step, k, input);
  }

  /** The iteration at `k` reports an outcome exactly when it does not fail. */
  lemma StepReported(env: Env, jobs: seq<Job>, step: (nat, seq<byte>) -> StepResult, k: nat, input: seq<byte>)
    requires k < |jobs| && Follows(env, jobs, step)
    ensures NumbersOf(step(k, input).events, Report) == if step(k, input).failure.None? then [jobs[k].number] else []
  {
    StepAt(env, jobs, step, k, input);
  }

  /** The label call of the iteration at `k`, if any, carries the suggested labels. */
  lemma StepCalls(env: Env, jobs: seq<Job>, step: (nat, seq<byte>) -> StepResult, k: nat, input: seq<byte>)
    requires k < |jobs| && Follows(env, jobs, step)
    ensures forall e :: e in step(k, input).events && e.LabelsAdded? ==>
      Suggests(jobs[k].suggestion) && e.call == AddLabelsCall(env.owner, env.repo, jobs[k].number, jobs[k].suggestion.value)
  {
    StepAt(env, jobs, step, k, input);
  }

  /** A failure of the iteration at `k` comes right after the call that failed. */
  lemma StepFailed(env: Env, jobs: seq<Job>, step: (nat, seq<byte>) -> StepResult, k: nat, input: seq<byte>)
    requires k < |jobs| && Follows(env, jobs, step)
    ensures var s := step(k, input);
      s.failure.Some? ==> FailedAt(env, k, jobs[k].number, jobs[k].suggestion, s.failure.value, s.input, s.events)
  {
    StepAt(env, jobs, step, k, input);
  }

  /** With confirmation, the iteration at `k` reads at most one byte, and applies the labels when that byte approves. */
  lemma StepAnswers(env: Env, jobs: seq<Job>, step: (nat, seq<byte>) -> StepResult, k: nat, input: seq<byte>)
    requires k < |jobs| && Follows(env, jobs, step)
    requires env.confirm
    ensures var s := step(k, input);
      var used := |input| - |s.input|;
      && 0 <= used <= |input| && s.input == input[used..]
      && NumbersOf(s.events, Add) == Approved(NumbersOf(s.events, Ask), input[..used])
      && (s.failure.None? ==> used == |NumbersOf(s.events, Ask)|)
  {
    StepAt(env, jobs, step, k, input);
    SpecAnswers(env, k, jobs[k].number, jobs[k].prompt, jobs[k].suggestion, input, step(k, input));
  }

  /**
   * The model is queried once per issue the run starts on, in list order,
   * each time with that issue's prompt.
   */
  lemma {:induction false} RunQueries(env: Env, jobs: seq<Job>, step: (nat, seq<byte>) -> StepResult, k: nat, input: seq<byte>)
    requires k <= |jobs| && Follows(env, jobs, step)
    ensures var r := Loop(step, |jobs|, k, input);
      Queries(r.trace) == QueriesFor(jobs[k..r.done])
    decreases |jobs| - k
  {
    if k < |jobs| {
      var s := step(k, input);
      var r := Loop(step, |jobs|, k, input);
      StepQueried(env, jobs, step, k, input);
      LoopUnfold(step, |jobs|, k, input);
      SliceCons(jobs, k, r.done);
      if s.failure.None? {
        var rest := Loop(step, |jobs|, k + 1, s.input);
        RunQueries(env, jobs, step, k + 1, s.input);
        QueriesAppend(s.events, rest.trace);
      }
    }
  }

  /**
   * An outcome is reported for every issue handled without failure, in list
   * order, and for no other: not for the issue whose call failed.
   */
  lemma {:induction false} RunReports(env: Env, jobs: seq<Job>, step: (nat, seq<byte>) -> StepResult, k: nat, input: seq<byte>)
    requires k <= |jobs| && Follows(env, jobs, step)
    ensures var r := Loop(step, |jobs|, k, input);
      k <= Completed(r) && NumbersOf(r.trace, Report) == Numbers(jobs[k..Completed(r)])
    decreases |jobs| - k
  {
    if k < |jobs| {
      var s := step(k, input);
      StepReported(env, jobs, step, k, input);
      LoopUnfold(step, |jobs|, k, input);
      if s.failure.None? {
        var rest := Loop(step, |jobs|, k + 1, s.input);
        RunReports(env, jobs, step, k + 1, s.input);
        NumbersOfAppend(s.events, rest.trace, Report);
        SliceCons(jobs, k, Completed(rest));
        assert Completed(Loop(step, |jobs|, k, input)) == Completed(rest);
      } else {
        assert Completed(Loop(step, |jobs|, k, input)) == k;
      }
    }
  }

  /**
   * The operator is asked about exactly the issues, among those the run
   * starts on, for which the model suggests labels, and only when
   * confirmation is on.
   */
  lemma {:induction false} RunAsks(env: Env, jobs: seq<Job>, step: (nat, seq<byte>) -> StepResult, k: nat, input: seq<byte>)
    requires k <= |jobs| && Follows(env, jobs, step)
    ensures var r := Loop(step, |jobs|, k, input);
      NumbersOf(r.trace, Ask) == if env.confirm then WantedNumbers(jobs, k, r.done) else []
    decreases |jobs| - k
  {
    if k < |jobs| {
      var s := step(k, input);
      StepAsked(env, jobs, step, k, input);
      LoopUnfold(step, |jobs|, k, input);
      if s.failure.None? {
        var rest := Loop(step, |jobs|, k + 1, s.input);
        RunAsks(env, jobs, step, k + 1, s.input);
        NumbersOfAppend(s.events, rest.trace, Ask);
      }
    }
  }

  /**
   * Without confirmation no input is read, and labels are applied to
   * exactly the issues for which the model suggests some.
   */
  lemma {:induction false} RunWithoutConfirm(env: Env, jobs: seq<Job>, step: (nat, seq<byte>) -> StepResult, k: nat, input: seq<byte>)
    requires k <= |jobs| && Follows(env, jobs, step) && !env.confirm
    ensures var r := Loop(step, |jobs|, k, input);
      r.input == input && NumbersOf(r.trace, Add) == WantedNumbers(jobs, k, r.done)
    decreases |jobs| - k
  {
    if k < |jobs| {
      var s := step(k, input);
      var r := Loop(step, |jobs|, k, input);
      var mine := if Suggests(jobs[k].suggestion) then [jobs[k].number] else [];
      StepAdded(env, jobs, step, k, input);
      LoopUnfold(step, |jobs|, k, input);
      if s.failure.None? {
        var rest := Loop(step, |jobs|, k + 1, s.input);
        RunWithoutConfirm(env, jobs, step, k + 1, s.input);
        NumbersOfAppend(s.events, rest.trace, Add);
        assert r.trace == s.events + rest.trace && r.done == rest.done;
        assert WantedNumbers(jobs, k, r.done) == mine + WantedNumbers(jobs, k + 1, r.done);
      } else {
        assert r.trace == s.events && r.done == k + 1;
        assert WantedNumbers(jobs, k, k + 1) == mine + WantedNumbers(jobs, k + 1, k + 1);
      }
    }
  }

  lemma {:induction false} ApprovedAppend(a: seq<nat>, c: seq<byte>, a': seq<nat>, c': seq<byte>)
    requires |a| == |c|
    ensures Approved(a + a', c + c') == Approved(a, c) + Approved(a', c')
  {
    if a == [] {
      assert a + a' == a' && c + c' == c';
    } else {
      assert (a + a')[1..] == a[1..] + a' && (c + c')[1..] == c[1..] + c';
      ApprovedAppend(a[1..], c[1..], a', c');
    }
  }

  /** Reading `input` down to `mid` and then to `last` reads the two prefixes one after the other. */
  lemma ReadPrefix(input: seq<byte>, mid: seq<byte>, last: seq<byte>)
    requires |mid| <= |input| && mid == input[|input| - |mid|..]
    requires |last| <= |mid| && last == mid[|mid| - |last|..]
    ensures last == input[|input| - |last|..]
    ensures input[..|input| - |last|] == input[..|input| - |mid|] + mid[..|mid| - |last|]
  {
  }

  /**
   * With confirmation, the run reads one byte per question, in order, and
   * applies labels to exactly the issues whose byte approves: the bytes read
   * are a prefix of the input, and the rest is left unread.  Only a failed
   * read leaves its question without a byte.
   */
  lemma {:induction false} RunWithConfirm(env: Env, jobs: seq<Job>, step: (nat, seq<byte>) -> StepResult, k: nat, input: seq<byte>)
    requires k <= |jobs| && Follows(env, jobs, step) && env.confirm
    ensures var r := Loop(step, |jobs|, k, input);
      var used := |input| - |r.input|;
      && 0 <= used <= |input| && r.input == input[used..]
      && NumbersOf(r.trace, Add) == Approved(NumbersOf(r.trace, Ask), input[..used])
      && (r.failure.None? ==> used == |NumbersOf(r.trace, Ask)|)
    decreases |jobs| - k
  {
    if k < |jobs| {
      var s := step(k, input);
      StepAnswers(env, jobs, step, k, input);
      LoopUnfold(step, |jobs|, k, input);
      if s.failure.None? {
        var rest := Loop(step, |jobs|, k + 1, s.input);
        RunWithConfirm(env, jobs, step, k + 1, s.input);
        NumbersOfAppend(s.events, rest.trace, Add);
        NumbersOfAppend(s.events, rest.trace, Ask);
        var used1 := |input| - |s.input|;
        var used2 := |s.input| - |rest.input|;
        ReadPrefix(input, s.input, rest.input);
        ApprovedAppend(NumbersOf(s.events, Ask), input[..used1], NumbersOf(rest.trace, Ask), s.input[..used2]);
      }
    }
  }

  /**
   * Every label call goes to the configured repository, for an issue the
   * run started on, with exactly the labels the model suggested for it,
   * which are never none.
   */
  lemma {:induction false} RunCalls(env: Env, jobs: seq<Job>, step: (nat, seq<byte>) -> StepResult, k: nat, input: seq<byte>)
    requires k <= |jobs| && Follows(env, jobs, step)
    ensures var r := Loop(step, |jobs|, k, input);
      forall e :: e in r.trace && e.LabelsAdded? ==>
        && e.call.owner == env.owner && e.call.repo == env.repo && e.call.labels != []
        && exists j :: k <= j < r.done && e.call.number == jobs[j].number && jobs[j].suggestion == Some(e.call.labels)
    decreases |jobs| - k
  {
    if k < |jobs| {
      var s := step(k, input);
      StepCalls(env, jobs, step, k, input);
      LoopUnfold(step, |jobs|, k, input);
      if s.failure.None? {
        RunCalls(env, jobs, step, k + 1, s.input);
      }
    }
  }

  lemma FailedAtAfter(env: Env, j: nat, n: nat, suggestion: Option<seq<string>>,
                      failure: Failure, left: seq<byte>, before: seq<Event>, trace: seq<Event>)
    requires FailedAt(env, j, n, suggestion, failure, left, trace)
    ensures FailedAt(env, j, n, suggestion, failure, left, before + trace)
  {
    assert (before + trace)[|before + trace| - 1] == trace[|trace| - 1];
  }

  /** A failure ends the run at the issue it names, right after the call that failed. */
  lemma {:induction false} RunFailure(env: Env, jobs: seq<Job>, step: (nat, seq<byte>) -> StepResult, k: nat, input: seq<byte>)
    requires k <= |jobs| && Follows(env, jobs, step)
    ensures var r := Loop(step, |jobs|, k, input);
      r.failure.Some? ==>
        var j := r.done - 1;
        FailedAt(env, j, jobs[j].number, jobs[j].suggestion, r.failure.value, r.input, r.trace)
    decreases |jobs| - k
  {
    if k < |jobs| {
      var s := step(k, input);
      var r := Loop(step, |jobs|, k, input);
      LoopUnfold(step, |jobs|, k, input);
      if s.failure.Some? {
        StepFailed(env, jobs, step, k, input);
        assert r == Run(s.events, s.input, s.failure, k + 1);
      } else {
        var rest := Loop(step, |jobs|, k + 1, s.input);
        RunFailure(env, jobs, step, k + 1, s.input);
        assert r == Run(s.events + rest.trace, rest.input, rest.failure, rest.done);
        if rest.failure.Some? {
          var j := rest.done - 1;
          FailedAtAfter(env, j, jobs[j].number, jobs[j].suggestion, rest.failure.value, rest.input, s.events, rest.trace);
        }
      }
    }
  }

  lemma DistinctCons(x: nat, xs: seq<nat>)
    ensures Distinct([x] + xs) <==> x !in xs && Distinct(xs)
  {
    var ys := [x] + xs;
    if x !in xs && Distinct(xs) {
      forall i, j | 0 <= i < j < |ys| ensures ys[i] != ys[j] {
        assert ys[j] == xs[j - 1];
        if i > 0 {
          assert ys[i] == xs[i - 1];
        }
      }
    }
    if Distinct(ys) {
      forall i, j | 0 <= i < j < |xs| ensures xs[i] != xs[j] {
        assert xs[i] == ys[i + 1] && xs[j] == ys[j + 1];
      }
      forall j | 0 <= j < |xs| ensures xs[j] != x {
        assert ys[0] == x && ys[j + 1] == xs[j];
      }
    }
  }

  /**
   * No issue is labelled twice: the label calls of a run are for issues of
   * the list, and for distinct issues when the list's numbers are distinct.
   */
  lemma {:induction false} RunAddsOnce(env: Env, jobs: seq<Job>, step: (nat, seq<byte>) -> StepResult, k: nat, input: seq<byte>)
    requires k <= |jobs| && Follows(env, jobs, step)
    ensures var adds := NumbersOf(Loop(step, |jobs|, k, input).trace, Add);
      && (forall x :: x in adds ==> x in Numbers(jobs[k..]))
      && (Distinct(Numbers(jobs[k..])) ==> Distinct(adds))
    decreases |jobs| - k
  {
    if k < |jobs| {
      var s := step(k, input);
      var r := Loop(step, |jobs|, k, input);
      var n := jobs[k].number;
      StepAddsOwn(env, jobs, step, k, input);
      LoopUnfold(step, |jobs|, k, input);
      SliceCons(jobs, k, |jobs|);
      assert jobs[k..] == jobs[k..|jobs|] && jobs[k + 1..] == jobs[k + 1..|jobs|];
      var added := NumbersOf(s.events, Add);
      if s.failure.Some? {
        assert r.trace == s.events;
      } else {
        var rest := Loop(step, |jobs|, k + 1, s.input);
        RunAddsOnce(env, jobs, step, k + 1, s.input);
        NumbersOfAppend(s.events, rest.trace, Add);
        var later := NumbersOf(rest.trace, Add);
        assert NumbersOf(r.trace, Add) == added + later;
        if Distinct(Numbers(jobs[k..])) {
          DistinctCons(n, Numbers(jobs[k + 1..]));
          if added == [n] {
            DistinctCons(n, later);
          } else {
            assert added + later == later;
          }
        }
      }
    }
  }
}
