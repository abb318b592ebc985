# issue-magic triage pipeline in Dafny

`issue-magic` is a small command-line tool. It lists a repository's
unlabeled issues and asks a language model which configured labels apply
to each one. After an optional confirmation from the operator, it applies
those labels. This project models the tool's core in `src/main.rs`:

- the pull-request filter of `list_issues`;
- the prompt that `build_prompt` renders;
- the parsing chain at the end of `ask_claude`;
- the one-byte decision of `user_confirm`;
- the fail-fast loop of `main` over the issues.

Each part is modelled as the source writes it, and its properties are proved.

The model is split into modules, one per file:

- `Strings` (`strings.dfy`) holds Rust's `str::trim`, `split(',')` and
  `join`:
  - `trim` strips the Unicode White_Space characters;
  - `split` always yields at least one piece.
- `Issues` (`issues.dfy`) holds the listing entry and the filter that
  drops pull requests.
- `Prompt` (`prompt.dfy`) holds `PromptText`, which is the prompt as a
  function. `BuildPrompt` is the method that appends piece by piece, with
  the two loops of the source: over the instruction lines and over the
  rules.
- `Response` (`response.dfy`) holds the reply's text blocks joined with
  no separator. The joined text is split on `','`, every piece is trimmed,
  and only pieces equal to `"none"` are dropped.
- `Confirm` (`confirm.dfy`) holds the answer byte read from standard
  input. Standard input is the sequence of bytes not yet read.
- `Triage` (`triage.dfy`) holds the per-issue iteration `Handle` and the
  loop as a function, `Loop`. The method `Triage` is the `for` loop of
  `main`, with its early `continue` and its `?` exits, and it is proved
  equal to `TriageRun`. The model, the label call and standard input are
  inputs of the run:
  - `Env.complete` answers the prompt of the issue at a position;
  - `Env.addLabels` says whether the label call at a position succeeds.
- `Steps` (`steps.dfy`) states what one iteration does, read off the
  events it records (`StepSpec`).
- `Runs` (`runs.dfy`) proves what a whole run does, for any iteration that
  meets `StepSpec`.
- `MainLoop` (`mainloop.dfy`) applies those results to `main`'s loop over
  a listing.
- `Scenarios` (`scenarios.dfy`) holds concrete situations: a padded
  `none`, a blank reply, and `y` followed by Enter at the confirmation
  prompt.

At three points the code behaves differently from what one might expect of
such a tool, and the model follows the code:

- **Empty pieces are kept.** One might expect the parser to drop empty
  pieces. The code only drops pieces equal to `"none"`. So an empty
  or blank reply parses to `[""]`, which is not empty. That label list
  reaches the operator or the label call (`Response.ParseBlank`,
  `Scenarios.BlankReplyLabels`).
- **End of input is an error.** One might expect end of input at the
  confirmation prompt to mean "no". The code's `read_exact` fails, and
  `?` ends the run (`Triage.Failure.ConfirmFailed`, `Steps.HandleOutcome`).
- **Labels are not deduplicated.** One might expect a set of distinct
  labels. The parser keeps duplicates (`Response.ParsePiecesCounts`).

One more behaviour follows from the code. `user_confirm` reads exactly one
byte. The newline typed after `y` therefore stays in the input and answers
the next question with "no" (`Scenarios.YesThenEnter`).

## Model

| member | source | states |
|---|---|---|
| Strings.LeadLength | src/main.rs:121 | the length of the longest all-whitespace prefix: every character before it is White_Space and the next one is not |
| Strings.TrailLength | src/main.rs:121 | the length of the longest all-whitespace suffix, maximal in the same way |
| Strings.TrimShape | src/main.rs:121 | `trim` returns a contiguous slice of the piece that has no whitespace at either end, and only whitespace lies outside it |
| Strings.TrimEnds | src/main.rs:121 | a trimmed piece neither starts nor ends with White_Space |
| Strings.TrimSlice | src/main.rs:121 | the trimmed piece is the slice starting after the leading whitespace, and everything after it is whitespace |
| Strings.TrimInside | src/main.rs:121 | trimming adds no character: a character absent from the piece is absent from its trim |
| Strings.TrimSurrounded | src/main.rs:121 | a trimmed text padded with whitespace on both sides trims back to itself |
| Strings.LeadAllWhitespace | src/main.rs:121 | in an all-whitespace text the leading whitespace is the whole text |
| Strings.LeadOf | src/main.rs:121 | the leading whitespace stops at the first non-whitespace character |
| Strings.TrailOf | src/main.rs:121 | the trailing whitespace stops at the last non-whitespace character |
| Strings.TrimIdempotent | src/main.rs:121 | trimming twice is trimming once |
| Strings.TrimBlank | src/main.rs:121 | an all-whitespace piece trims to the empty string |
| Strings.ConcatSnoc | src/main.rs:119 | joining with no separator and then appending one more piece is joining the longer list |
| Strings.Split | src/main.rs:120 | `split(',')` always yields at least one piece, even for the empty text |
| Strings.SplitCount | src/main.rs:120 | there is one piece more than there are separators |
| Strings.JoinSplit | src/main.rs:120 | no piece contains the separator, and joining the pieces with it gives back the text |
| Strings.JoinConsChar | src/main.rs:120 | adding a character in front of the first piece adds it in front of the joined text |
| Strings.SplitAppend | src/main.rs:120 | splitting two texts joined by the separator gives the pieces of each, in order |
| Strings.SplitAppendStep | src/main.rs:120 | the step of `SplitAppend`: a leading character extends the first piece or opens an empty one, whatever follows |
| Strings.SplitConsOther | src/main.rs:120 | a leading character that is not the separator belongs to the first piece |
| Strings.SplitConsSep | src/main.rs:120 | a leading separator yields an empty first piece |
| Strings.SplitCons | src/main.rs:120 | one leading character, either way |
| Strings.SplitJoin | src/main.rs:120 | splitting the join of separator-free pieces gives back the pieces |
| Strings.SplitWithoutSep | src/main.rs:120 | a text without the separator is a single piece |
| Strings.Trim | src/main.rs:121 | `str::trim`: the piece without its leading and trailing White_Space; characterised by `TrimShape`, `TrimSurrounded`, `TrimIdempotent` and `TrimBlank` |
| Strings.Join | src/main.rs:119 | `join`: the pieces with the separator between neighbours; characterised by `ConcatSnoc`, `JoinSplit` and `SplitJoin` |
| Issues.KeepIssues | src/main.rs:56-60 | the filter keeps exactly the listed entries that are not pull requests, and no others |
| Issues.PullRequestCount | src/main.rs:59 | the number of entries the filter drops: at most the number of entries, and zero exactly when no entry is a pull request |
| Issues.KeepIssuesAppend | src/main.rs:56-60 | filtering commutes with concatenation, so the listing order is kept |
| Issues.KeepIssuesCounts | src/main.rs:56-60 | exactly the pull requests are dropped: the length falls by their number, and every other entry keeps all its occurrences |
| Issues.KeepIssuesNoPullRequests | src/main.rs:56-60 | a listing without pull requests passes through unchanged |
| Issues.KeepIssuesIdempotent | src/main.rs:56-60 | filtering twice is filtering once |
| Prompt.InstructionsPreamble | src/main.rs:67-74 | the five instruction lines appended in order give the preamble the prompt opens with |
| Prompt.BuildPrompt | src/main.rs:63-91 | appending the instruction lines, the title line, the body line (an absent body as `""`), the header and one line per rule yields `PromptText` |
| Prompt.PushInstructions | src/main.rs:74 | the `for_each` over the instruction lines appends the preamble |
| Prompt.PushAll | src/main.rs:74 | appending every piece in order appends their join |
| Prompt.PushRuleLines | src/main.rs:83-88 | the loop over the rules appends one rule line per rule, in sequence order |
| Prompt.RuleLinesAppend | src/main.rs:83-88 | the rule section of two rule lists is the two sections one after the other |
| Prompt.PromptAddRule | src/main.rs:83-88 | one more rule at the end adds exactly its line at the end of the prompt |
| Prompt.PromptRuleAt | src/main.rs:82-88 | the line of the `i`-th rule sits right after the issue section and the lines of the rules before it |
| Prompt.PromptOpening | src/main.rs:67-75 | the prompt begins with the instruction block followed by `Issue Title: <title>\n` |
| Prompt.PromptWithoutRules | src/main.rs:82-88 | with no rules the prompt ends with the header `Labels and their conditions:\n` |
| Prompt.PromptAbsentBody | src/main.rs:76-79 | an absent body and an empty body give the same prompt |
| Prompt.PromptDeterministic | src/main.rs:63-91 | the prompt depends only on the title, the body text and the rules |
| Prompt.PromptText | src/main.rs:63-91 | the prompt `build_prompt` returns: preamble, title line, body line, header, one line per rule; `BuildPrompt` is proved to produce it, and `PromptOpening`, `PromptRuleAt`, `PromptWithoutRules` characterise it |
| Response.ParsePiecesFrom | src/main.rs:121-123 | every label is the trimmed text of some piece |
| Response.ParsePiecesBounds | src/main.rs:121-123 | at most one label per piece, and never `"none"` |
| Response.ParseTextBounds | src/main.rs:120-123 | at most one label more than there are commas in the reply, and never `"none"` |
| Response.ParseTextLabels | src/main.rs:120-123 | no label has surrounding whitespace or contains a comma |
| Response.TrimAll | src/main.rs:121 | the reference that trims every piece and drops none: same length, and each entry is its piece trimmed |
| Response.ParsePiecesAppend | src/main.rs:121-123 | parsing commutes with concatenating pieces, so relative order is kept |
| Response.ParsePiecesCounts | src/main.rs:121-123 | apart from `"none"`, every trimmed piece occurs among the labels exactly as often as among the trimmed pieces: duplicates, other casings and empty pieces are kept |
| Response.ParsePiecesEmpty | src/main.rs:121-123 | there are no labels if and only if every piece trims to `"none"` |
| Response.ParseConcat | src/main.rs:120-123 | a reply made of two texts around a comma parses to the labels of each, in order |
| Response.ParseOnePiece | src/main.rs:120-123 | a comma-free reply gives its trimmed text, or nothing when that is `"none"` |
| Response.ParseJoined | src/main.rs:120-123 | parsing comma-free pieces joined with commas trims and filters exactly those pieces |
| Response.ParseEmpty | src/main.rs:120-123 | a reply gives no labels if and only if each of its comma-separated pieces trims to `"none"` |
| Response.ParseBlank | src/main.rs:120-123 | an empty or blank reply gives `[""]`, which is not empty |
| Response.ParseKeepsBlankPiece | src/main.rs:120-123 | a blank piece between two commas stays as an empty label in its place |
| Response.ParseSingleLabel | src/main.rs:120-123 | a single unpadded, comma-free name other than `"none"` parses to itself |
| Response.ParseSentinel | src/main.rs:121-122 | `"none"` with any surrounding whitespace gives no labels |
| Response.ResponseTextAppend | src/main.rs:111-119 | the reply text of two block lists is their two texts joined |
| Response.ResponseTextSkipsOther | src/main.rs:114-117 | a block that is not text contributes nothing, wherever it stands |
| Response.ResponseText | src/main.rs:111-119 | the text blocks' texts joined with no separator, other blocks as `""`; characterised by `ResponseTextAppend` and `ResponseTextSkipsOther` |
| Response.ParsePieces | src/main.rs:121-123 | trim every piece and drop those equal to `"none"`; characterised by `ParsePiecesCounts` against `TrimAll`, `ParsePiecesEmpty` and `ParsePiecesAppend` |
| Response.ParseText | src/main.rs:120-123 | split the reply text on `','` and parse the pieces; characterised by `ParseTextBounds`, `ParseTextLabels`, `ParseConcat` and `ParseEmpty` |
| Response.ParseLabels | src/main.rs:111-123 | the labels `ask_claude` returns for a reply; characterised by `MainLoop.SuggestionShape` and `Scenarios.TextReplyLabels` |
| Confirm.Approves | src/main.rs:137-140 | the answer is yes if and only if the byte is `y` (0x79) or `Y` (0x59) |
| Confirm.ReadAnswer | src/main.rs:136-140 | the read fails if and only if no input is left; otherwise it consumes exactly one byte, whose value alone decides the answer |
| Confirm.AnswerLeavesNewline | src/main.rs:136-140 | after `y` and a newline, the newline is left and, read next, declines |
| Triage.Loop | src/main.rs:175-210 | the loop finishes every position when nothing fails, and stops at a failure (`Runs.RunFailure` states where) |
| Triage.Step | src/main.rs:189-209 | one iteration: the prompt, the model's suggestion, then `Handle`; `Triage.HandleIssue` is proved to compute it |
| Triage.Handle | src/main.rs:190-209 | the iteration once the model has answered; characterised by `Steps.HandleEvents`, `Steps.HandleOutcome` and `Steps.HandleSpec` |
| Triage.Apply | src/main.rs:197-206 | the `label_issue` call and, when it succeeds, the report of the applied labels; characterised by `Steps.HandleCalls` |
| Triage.TriageRun | src/main.rs:175-210 | the loop over the issues the filter at lines 56-60 keeps; `Triage.Triage` is proved to compute it, and the `MainLoop` lemmas characterise it |
| Triage.RunAdvance | src/main.rs:175-210 | one more iteration either ends the run with its failure or leaves the rest of the loop to do from the input it left |
| Triage.Triage | src/main.rs:175-210 | the `for` loop of `main`, with its `continue` and `?` exits, produces the run `TriageRun` describes |
| Triage.HandleIssue | src/main.rs:189-209 | the body of the loop for one issue is the iteration `Step` |
| Steps.NumbersOfAppend | src/main.rs:175-210 | the numbers of one kind of event in two traces are those of each, in order |
| Steps.QueriesAppend | src/main.rs:175-210 | the model queries of two traces are those of each, in order |
| Steps.NumbersOfSingle | src/main.rs:175-210 | a single event contributes its own number to its own kind only |
| Steps.HandleEvents | src/main.rs:189-209 | the events of one iteration: the query; a question exactly when there are labels and confirmation is on; a label call exactly when there are labels and confirmation is off or the byte approves; a report exactly when nothing failed |
| Steps.HandleOutcome | src/main.rs:190-205 | one byte is read only when the operator is asked; each failure names the issue, and it happens if and only if its call fails |
| Steps.PartsTrace | src/main.rs:189-209 | an iteration's trace has one query and one question, call or report when they happen |
| Steps.HandleTrace | src/main.rs:189-209 | per kind of event, one iteration queries once, and asks, calls and reports once exactly when it should |
| Steps.HandleCalls | src/main.rs:197-205 | a label call goes to the configured repository for the issue, with the suggested non-empty labels; a failed iteration ends with the call that failed |
| Steps.HandleFailure | src/main.rs:190-205 | a failed iteration ends right after the model request, the read of the exhausted input, or the label call that failed |
| Steps.HandleSpec | src/main.rs:189-209 | `Handle` meets `StepSpec` |
| Steps.SpecAnswers | src/main.rs:197 | with confirmation on, an iteration reads at most one byte, and it calls for labels exactly when it asked and that byte approves |
| Runs.SliceCons | src/main.rs:175 | a stretch of the list is its first issue and then the rest |
| Runs.LoopUnfold | src/main.rs:175-210 | one iteration of the loop, unfolded |
| Runs.StepAt | src/main.rs:189-209 | the iteration at a position inside the list meets `StepSpec` |
| Runs.StepQueried | src/main.rs:189-190 | the iteration queries the model once, with the issue's prompt |
| Runs.StepAsked | src/main.rs:197 | the iteration asks exactly when there are labels and confirmation is on |
| Runs.StepAdded | src/main.rs:197-205 | without confirmation the iteration reads nothing and calls for labels exactly when there are some |
| Runs.StepAddsOwn | src/main.rs:197-205 | the iteration calls for labels at most once, for its own issue |
| Runs.StepReported | src/main.rs:192-208 | the iteration reports an outcome exactly when it does not fail |
| Runs.StepCalls | src/main.rs:198-204 | the label call carries the suggested labels |
| Runs.StepFailed | src/main.rs:190-205 | a failure comes right after the call that failed |
| Runs.StepAnswers | src/main.rs:197 | with confirmation on, the iteration reads at most one byte and applies the labels exactly when that byte approves |
| Runs.RunQueries | src/main.rs:175-190 | the run queries the model once per issue it starts on, in list order, with that issue's prompt |
| Runs.RunReports | src/main.rs:175-209 | the run reports an outcome for every issue it finished, in list order, and for no other |
| Runs.RunAsks | src/main.rs:192-197 | the run asks about exactly the issues with suggested labels when confirmation is on, and never otherwise |
| Runs.RunWithoutConfirm | src/main.rs:197-205 | without confirmation the run reads no input and labels exactly the issues with suggested labels |
| Runs.ApprovedAppend | src/main.rs:136-140 | pairing questions with answer bytes in order splits over concatenation |
| Runs.RunWithConfirm | src/main.rs:136-140 | with confirmation on, the run reads a prefix of the input, one byte per question in order (as many bytes as questions when nothing fails), and labels exactly the issues whose byte is `y` or `Y` |
| Runs.RunCalls | src/main.rs:197-205 | every label call of the run goes to the configured repository, for an issue of the list, with the non-empty labels suggested for it |
| Runs.FailedAtAfter | src/main.rs:175-210 | earlier events do not change how a failed run ends |
| Runs.RunFailure | src/main.rs:175-210 | a failure ends the run right after the call that failed, at the issue it names |
| Runs.RunAddsOnce | src/main.rs:197-205 | every labelled issue is in the list, and no issue is labelled twice when the numbers are distinct |
| MainLoop.IterationFollows | src/main.rs:189-209 | `main`'s iteration meets `StepSpec` for every issue of the list |
| MainLoop.JobsNumbers | src/main.rs:175 | the jobs of a stretch of the list carry the numbers of its issues |
| MainLoop.JobsQueries | src/main.rs:189 | the jobs of a stretch of the list carry the prompts of its issues |
| MainLoop.IssueQueriesIn | src/main.rs:189-190 | each query is for an issue of the list, with that issue's prompt |
| MainLoop.TriageQueries | src/main.rs:175-190 | `main` queries the model once per listed issue that the filter at lines 56-60 keeps (never a pull request), in order, with its prompt, up to the issue that failed, or for all of them when nothing fails |
| MainLoop.TriageReports | src/main.rs:175-209 | `main` reports an outcome for every issue it finished, in listing order; after a failure the failed issue gets no report and no later issue is handled |
| MainLoop.TriageAsks | src/main.rs:192-205 | with confirmation on, `main` asks about exactly the issues for which the model suggests labels; with it off, it never asks, reads no input, and labels exactly those issues |
| MainLoop.TriageAnswers | src/main.rs:136-140 | with confirmation on, `main` reads one byte per question, in order, and labels exactly the issues whose byte is `y` or `Y`; a run that does not fail reads as many bytes as it asks questions; what it has not read is left |
| MainLoop.TriageCalls | src/main.rs:197-205 | every label call goes to the configured repository, for a listed issue that is not a pull request and that the run reached, with exactly the labels the model suggested for that issue (`SuggestedCall`): never none, never `"none"`, each trimmed and comma-free |
| MainLoop.TriageAddsOnce | src/main.rs:197-205 | when the listing's numbers are distinct, no issue is labelled twice |
| MainLoop.TriageFailure | src/main.rs:175-210 | a failure ends `main` at the issue it names, right after the model request, the read of the exhausted input, or the label call that failed |
| MainLoop.SuggestionShape | src/main.rs:111-123 | what the model suggests never contains `"none"`, and each label is trimmed and comma-free |
| MainLoop.KeepIssuesNumbers | src/main.rs:56-60 | filtering keeps only numbers of the listing, and keeps them distinct |
| Scenarios.TextReplyLabels | src/main.rs:111-119 | a reply of one text block parses like its text |
| Scenarios.PaddedNoneReply | src/main.rs:190-195 | a padded `none` reply reports no labels, asks nothing, calls nothing and reads no input |
| Scenarios.BlankReplyLabels | src/main.rs:190-205 | without confirmation, a blank reply leads to a label call with one empty label |
| Scenarios.SingleLabelReply | src/main.rs:190-206 | without confirmation, a reply naming one label applies exactly that label |
| Scenarios.YesThenEnter | src/main.rs:136-140 | `y` and Enter label the first issue, and the newline left in the input skips the second |
| Scenarios.YesThenEnd | src/main.rs:136 | `y` alone labels the first issue, and the second question finds the input exhausted and fails the run |

## Left out

- Network calls are not modelled. This covers the repository host (`list_issues` apart from its filter, and `label_issue`) and the model service, including request building at `src/main.rs:94-107`. They are inputs of the run: a listing, `Env.complete` and `Env.addLabels`. The listing is taken as already fetched, so pagination (`per_page(100)`) and the errors of `list_issues` are not modelled.
- Command-line parsing and configuration loading (`src/main.rs:16-24`, `159-169`) are not modelled. The owner, the repository, the rules and the confirmation switch are plain inputs.
- Terminal output, including ANSI formatting, the body preview and the status lines (`src/main.rs:129`, `173-187`, `193`, `206`, `208`), is not modelled. Each outcome is recorded as a `Reported` event instead. Flushing standard output (`src/main.rs:130`) and its possible error are not modelled either.
- The configuration's `labels` table is a `HashMap`, whose iteration order Rust does not fix. It is modelled as a sequence, so the model fixes one order.
- Issue numbers are `u64` in the source and unbounded naturals here. Nothing in the core does arithmetic on them.
- `async`/`await` and the runtime are not modelled. The loop is sequential.
- Triage.Iteration: outside the list it stands for an iteration that does nothing. `Loop` never calls it there.
- MainLoop.TriageFailure: for a failed model request it states the issue and that the last event is its query, but not the query's prompt. `MainLoop.TriageQueries` states the prompts.
- MainLoop.TriageAsks: the issues are given through `Jobs`, which pairs each issue's number with the model's suggestion for it.
- Scenarios.YesThenEnter: it runs `Loop` over an iteration whose two suggestions are given directly, rather than over the model's replies to two prompts.
- Scenarios.YesThenEnd: the same as `Scenarios.YesThenEnter`.
