/**
 * The issues the repository host returns, and the filter that `list_issues`
 * applies to them: the listing mixes issues with pull requests, and only
 * entries without a pull-request link are kept for triage.
 */
module Issues {
  import opened Wrappers

  /**
   * One entry of the host's issue listing.  `body` is absent when the issue
   * has no description; `isPullRequest` stands for `pull_request.is_some()`.
   */
  datatype Issue = Issue(number: nat, title: string, body: Option<string>, isPullRequest: bool)

  /** The entries of `items` that are not pull requests, in their listed order. */
  function KeepIssues(items: seq<Issue>): (issues: seq<Issue>)
    ensures |issues| <= |items|
    ensures forall i :: i in issues ==> i in items && !i.isPullRequest
    ensures forall i :: i in items && !i.isPullRequest ==> i in issues
  {
    if items == [] then [] else Kept(items[0]) + KeepIssues(items[1..])
  }

  /** What one entry contributes to the filtered listing. */
  function Kept(item: Issue): seq<Issue> {
    if item.isPullRequest then [] else [item]
  }

  /** The number of pull requests in `items`. */
  function PullRequestCount(items: seq<Issue>): (n: nat)
    ensures n <= |items|
    ensures n == 0 <==> forall i :: i in items ==> !i.isPullRequest
  {
    if items == [] then 0 else (if items[0].isPullRequest then 1 else 0) + PullRequestCount(items[1..])
  }

  /** Filtering commutes with concatenation, so relative order is preserved. */
  lemma {:induction false} KeepIssuesAppend(a: seq<Issue>, b: seq<Issue>)
    ensures KeepIssues(a + b) == KeepIssues(a) + KeepIssues(b)
  {
    if a != [] {
      assert (a + b)[0] == a[0] && (a + b)[1..] == a[1..] + b;
      KeepIssuesAppend(a[1..], b);
      assert KeepIssues(a + b) == Kept(a[0]) + (KeepIssues(a[1..]) + KeepIssues(b));
    } else {
      assert a + b == b;
    }
  }

  /** Exactly the pull requests are dropped: each issue keeps all its occurrences. */
  lemma {:induction false} KeepIssuesCounts(items: seq<Issue>)
    ensures |KeepIssues(items)| == |items| - PullRequestCount(items)
    ensures forall i: Issue :: !i.isPullRequest ==> multiset(KeepIssues(items))[i] == multiset(items)[i]
    ensures forall i: Issue :: i.isPullRequest ==> multiset(KeepIssues(items))[i] == 0
  {
    if items != [] {
      var rest := KeepIssues(items[1..]);
      KeepIssuesCounts(items[1..]);
      assert items == [items[0]] + items[1..];
      assert multiset(items) == multiset([items[0]]) + multiset(items[1..]);
      assert multiset(KeepIssues(items)) == multiset(Kept(items[0])) + multiset(rest);
    }
  }

  /** A listing without pull requests passes through unchanged. */
  lemma {:induction false} KeepIssuesNoPullRequests(items: seq<Issue>)
    requires forall i :: i in items ==> !i.isPullRequest
    ensures KeepIssues(items) == items
  {
    if items != [] {
      KeepIssuesNoPullRequests(items[1..]);
      assert items == [items[0]] + items[1..];
    }
  }

  /** Filtering a second time changes nothing. */
  lemma KeepIssuesIdempotent(items: seq<Issue>)
    ensures KeepIssues(KeepIssues(items)) == KeepIssues(items)
  {
    KeepIssuesNoPullRequests(KeepIssues(items));
  }
}
