/**
 * `build_prompt`: renders one issue and the configured label rules into the
 * text sent to the language model.  `PromptText` is the rendering as a
 * function; `BuildPrompt` appends the same pieces step by step, as the
 * source does with `String::push_str`.
 */
module Prompt {
  import opened Wrappers
  import opened Strings
  import opened Issues

  /**
   * One entry of the configuration's `labels` table: the label's name and the
   * natural-language condition under which it applies.  The table is a
   * sequence, so its iteration order is the sequence order.
   */
  datatype LabelRule = LabelRule(name: string, condition: string)

  /** The fixed instruction lines, in the order they are appended. */
  const Instructions: seq<string> := [
    "Based on the following issue, respond ONLY with a comma-separated list of labels that should be applied.\n",
    "If no labels apply, respond with 'none'.\n",
    "If none of the label rules apply, respond with 'none'.\n",
    "Do not suggest labels other than the ones provided below.\n",
    "\n\n"
  ]

  /**
   * The instruction lines joined: the text the prompt opens with.  It spells
   * out the same five lines as `Instructions` so that the prompt's
   * definition need not unfold the join of the list, which is costly for the
   * verifier; `InstructionsPreamble` proves the two agree.
   */
  const Preamble: string :=
    "Based on the following issue, respond ONLY with a comma-separated list of labels that should be applied.\n"
    + "If no labels apply, respond with 'none'.\n"
    + "If none of the label rules apply, respond with 'none'.\n"
    + "Do not suggest labels other than the ones provided below.\n"
    + "\n\n"

  /** Appending the instruction lines one by one gives the preamble. */
  lemma InstructionsPreamble()
    ensures Join(Instructions, []) == Preamble
  {
    JoinFive(Instructions[0], Instructions[1], Instructions[2], Instructions[3], Instructions[4]);
  }

  lemma JoinFive(a: string, b: string, c: string, d: string, e: string)
    ensures Join([a, b, c, d, e], []) == a + b + c + d + e
  {
    var sep: string := [];
    assert [a, b, c, d, e][1..] == [b, c, d, e];
    assert [b, c, d, e][1..] == [c, d, e];
    assert [c, d, e][1..] == [d, e];
    assert [d, e][1..] == [e];
    assert Join([d, e], sep) == d + e by {
      assert d + sep == d;
    }
    assert Join([c, d, e], sep) == c + (d + e) by {
      assert c + sep == c;
    }
    assert Join([b, c, d, e], sep) == b + (c + (d + e)) by {
      assert b + sep == b;
    }
    assert Join([a, b, c, d, e], sep) == a + (b + (c + (d + e))) by {
      assert a + sep == a;
    }
  }

  const RulesHeader: string := "Labels and their conditions:\n"

  /** An absent body is rendered as the empty string. */
  function BodyText(issue: Issue): string {
    match issue.body
    case Some(b) => b
    case None => ""
  }

  function TitleLine(issue: Issue): string {
    "Issue Title: " + issue.title + "\n"
  }

  function BodyLine(issue: Issue): string {
    "Issue Body: " + BodyText(issue) + "\n\n"
  }

  function RuleLine(rule: LabelRule): string {
    "- Apply '" + rule.name + "' if the issue " + rule.condition + "\n"
  }

  /** One rule line per rule, in sequence order. */
  function RuleLines(rules: seq<LabelRule>): string {
    if rules == [] then "" else RuleLine(rules[0]) + RuleLines(rules[1..])
  }

  /** Everything before the rule lines: instructions, issue and header. */
  function IssueSection(issue: Issue): string {
    Preamble + TitleLine(issue) + BodyLine(issue) + RulesHeader
  }

  /** The complete prompt for `issue` under `rules`. */
  function PromptText(issue: Issue, rules: seq<LabelRule>): string {
    IssueSection(issue) + RuleLines(rules)
  }

  /** `build_prompt`, appending piece by piece to an initially empty string. */
  method BuildPrompt(issue: Issue, rules: seq<LabelRule>) returns (prompt: string)
    ensures prompt == PromptText(issue, rules)
  {
    prompt := PushInstructions("");
    prompt := prompt + "Issue Title: " + issue.title + "\n";
    prompt := prompt + "Issue Body: " + BodyText(issue) + "\n\n";
    prompt := prompt + RulesHeader;
    prompt := PushRuleLines(prompt, rules);
  }

  /** Appends the instruction lines, in order, to `prompt`. */
  method PushInstructions(prompt: string) returns (out: string)
    ensures out == prompt + Preamble
  {
    out := PushAll(prompt, Instructions);
    InstructionsPreamble();
  }

  /** Appends every piece of `parts`, in order, to `prompt`. */
  method PushAll(prompt: string, parts: seq<string>) returns (out: string)
    ensures out == prompt + Join(parts, [])
  {
    out := prompt;
    for k := 0 to |parts|
      invariant out == prompt + Join(parts[..k], [])
    {
      ConcatSnoc(parts[..k], parts[k]);
      assert parts[..k + 1] == parts[..k] + [parts[k]];
      out := out + parts[k];
    }
    assert parts[..|parts|] == parts;
  }

  /** Appends one line per rule, in order, to `prompt`. */
  method PushRuleLines(prompt: string, rules: seq<LabelRule>) returns (out: string)
    ensures out == prompt + RuleLines(rules)
  {
    out := prompt;
    for k := 0 to |rules|
      invariant out == prompt + RuleLines(rules[..k])
    {
      RuleLinesAppend(rules[..k], [rules[k]]);
      assert rules[..k + 1] == rules[..k] + [rules[k]];
      assert RuleLines([rules[k]]) == RuleLine(rules[k]);
      out := out + RuleLine(rules[k]);
    }
    assert rules[..|rules|] == rules;
  }

  /** The rule section of a concatenation of rule lists is the concatenation of their sections. */
  lemma {:induction false} RuleLinesAppend(a: seq<LabelRule>, b: seq<LabelRule>)
    ensures RuleLines(a + b) == RuleLines(a) + RuleLines(b)
  {
    if a == [] {
      assert a + b == b;
    } else {
      assert (a + b)[1..] == a[1..] + b;
      RuleLinesAppend(a[1..], b);
    }
  }

  /** Adding one rule at the end adds exactly its line at the end of the prompt. */
  lemma PromptAddRule(issue: Issue, rules: seq<LabelRule>, rule: LabelRule)
    ensures PromptText(issue, rules + [rule]) == PromptText(issue, rules) + RuleLine(rule)
  {
    RuleLinesAppend(rules, [rule]);
    assert RuleLines([rule]) == RuleLine(rule);
  }

  /**
   * The line of the `i`-th rule sits in the prompt right after the issue
   * section and the lines of the rules before it.
   */
  lemma PromptRuleAt(issue: Issue, rules: seq<LabelRule>, i: nat)
    requires i < |rules|
    ensures var start := |IssueSection(issue)| + |RuleLines(rules[..i])|;
      var p := PromptText(issue, rules);
      start + |RuleLine(rules[i])| <= |p| && p[start..start + |RuleLine(rules[i])|] == RuleLine(rules[i])
  {
    RuleLineAt(rules, i);
    SliceAfter(IssueSection(issue), RuleLines(rules), |RuleLines(rules[..i])|, |RuleLine(rules[i])|);
  }

  lemma RuleLineAt(rules: seq<LabelRule>, i: nat)
    requires i < |rules|
    ensures var start := |RuleLines(rules[..i])|;
      var r := RuleLines(rules);
      start + |RuleLine(rules[i])| <= |r| && r[start..start + |RuleLine(rules[i])|] == RuleLine(rules[i])
  {
    assert rules == rules[..i] + ([rules[i]] + rules[i + 1..]);
    RuleLinesAppend(rules[..i], [rules[i]] + rules[i + 1..]);
    assert ([rules[i]] + rules[i + 1..])[1..] == rules[i + 1..];
  }

  lemma SliceAfter(x: string, r: string, o: nat, l: nat)
    requires o + l <= |r|
    ensures |x| + o + l <= |x + r| && (x + r)[|x| + o..|x| + o + l] == r[o..o + l]
  {
  }

  /** The prompt opens with the instruction block followed by the title line. */
  lemma PromptOpening(issue: Issue, rules: seq<LabelRule>)
    ensures Preamble + "Issue Title: " + issue.title + "\n" <= PromptText(issue, rules)
  {
    var pre := Preamble + TitleLine(issue);
    var rest := BodyLine(issue) + RulesHeader + RuleLines(rules);
    assert PromptText(issue, rules) == pre + rest;
    PrefixAppend(pre, rest);
  }

  lemma PrefixAppend(a: string, b: string)
    ensures a <= a + b
  {
  }

  /** With no label rules the prompt ends with the rules header. */
  lemma PromptWithoutRules(issue: Issue)
    ensures var p := PromptText(issue, []);
      |RulesHeader| <= |p| && p[|p| - |RulesHeader|..] == RulesHeader
  {
    var p := PromptText(issue, []);
    assert p == (Preamble + TitleLine(issue) + BodyLine(issue)) + RulesHeader;
  }

  /** An absent body and an empty body give the same prompt. */
  lemma PromptAbsentBody(issue: Issue, rules: seq<LabelRule>)
    ensures PromptText(issue.(body := None), rules) == PromptText(issue.(body := Some("")), rules)
  {
  }

  /** The prompt depends only on the title, the body and the rules. */
  lemma PromptDeterministic(issue: Issue, other: Issue, rules: seq<LabelRule>)
    requires other.title == issue.title && BodyText(other) == BodyText(issue)
    ensures PromptText(other, rules) == PromptText(issue, rules)
  {
  }
}
