# colony task runner core, in Dafny

This project models the execution core of the colony task runner, a TypeScript
tool. The runner works in five steps:

1. It turns a free-text task description into numbered sub-tasks.
2. It layers the sub-tasks into groups whose dependencies lie in earlier groups.
3. It runs each group in chunks of at most `maxParallelTasks`.
4. It runs each sub-task through a small state machine (pending, in progress,
   then completed or failed), with optional staging, verification and commit.
5. It reports the outcome as counts, a summary and a text, Markdown or JSON
   rendering, and it picks the exit code.

The model is functional:

- Sub-tasks are immutable records kept in one store, a `seq<SubTask>`.
- A group or batch is a sequence of positions in that store.
- The executor and the runner map an old store to a new one.
- Whatever the source gets from outside arrives as a parameter. This covers
  the clock readings, what staging and committing return or throw, what the
  verifier resolves to, the probe runs and the ISO rendering of times.

Modules, one per source file:

| module | source file | file |
|---|---|---|
| `Wrappers` | — | `wrappers.dfy` (`Option`) |
| `Strings` | — | `strings.dfy`: the JavaScript string operations the core uses |
| `Types` | `src/types/index.ts` | `types.dfy` |
| `Decomposer` | `src/core/decomposer.ts` | `decomposer.dfy` |
| `DecomposerExample` | `src/core/decomposer.ts` | `decomposer-example.dfy`: the three-bullet layering |
| `Executor` | `src/core/executor.ts` | `executor.dfy` |
| `Verifier` | `src/core/verifier.ts` | `verifier.dfy` |
| `Reporter` | `src/core/reporter.ts` | `reporter.dfy` |
| `TaskRunner` | `src/core/task-runner.ts` | `task-runner.dfy` |

`Strings` covers these JavaScript operations:

- `trim` and the regex `\s`, with the ECMAScript whitespace and line-terminator
  set;
- `split` on one character, and `join`;
- `includes`;
- `toLowerCase`, on ASCII letters only (see below);
- number printing.

Lower-casing only ASCII letters gives the same cue test as full Unicode
lower-casing. No non-ASCII character lower-cases to a letter sequence that
completes one of the cue words "after", "once", "then" and "following".

Some values are modelled explicitly:

- Integer division in `formatDuration` is JavaScript's `Math.floor`. Dafny's
  division agrees with it for a positive divisor.
- A negative `ms` prints a negative second count, as the source does.
- The replacement string of `String.prototype.replace` keeps its `$$`, `$&`,
  `` $` `` and `$'` patterns.
- The bullet class of the list-item regex is taken character for character
  from the file. It holds `-`, `*` and the three characters U+00E2, U+20AC and
  U+00A2. These are the bullet glyph stored in the wrong encoding, so the glyph
  U+2022 itself is not a bullet marker.

Where the system's documented behaviour and its code differ, the model follows
the code:

- Take the description "- Set up database", "- After db, run migrations",
  "- Deploy", one item per line. A list item without a cue word gets no
  dependency, so this layers as two groups: `task-1` with `task-3`, then
  `task-2`. It is not a chain of three batches. `DecomposerExample.DatabaseExampleGroups`
  states this for that very text, and `DecomposerExample.OnlyMiddleCueGroups`
  for every three-item bullet list where only the middle item has a cue.
- On the exception path of `executeTask` the sub-task keeps its old `result`.

## Model

| member | source | states |
|---|---|---|
| Strings.TrimIsSlice | src/core/decomposer.ts:41 | `trim` returns a slice of the line with only whitespace cut on either side, and the slice neither starts nor ends with whitespace |
| Strings.TrimEmpty | src/core/decomposer.ts:16 | a line is dropped by the `filter(line => line.trim())` test exactly when it is all whitespace |
| Strings.JoinSplit | src/core/decomposer.ts:16 | splitting on `\n` loses nothing: joining the pieces with `\n` gives the text back |
| Strings.SplitJoin | src/core/decomposer.ts:16 | a non-empty list of pieces without `\n`, joined with `\n`, splits back into the same pieces |
| Strings.NatToStringInjective | src/core/decomposer.ts:23 | distinct numbers print as distinct decimal texts |
| Decomposer.TaskIdInjective | src/core/decomposer.ts:23 | `task-${n}` ids of distinct numbers differ |
| Decomposer.CaptureRestIsGreedyMatch | src/core/decomposer.ts:44-45 | the `\s+(.+)$` capture exists exactly when some whitespace run followed by a non-empty rest without line terminators exists; the capture is the one the greedy `\s+` chooses, the latest such split |
| DecomposerExample.BulletItem | src/core/decomposer.ts:44-48 | a line "- item", where the item has no outer whitespace and no line terminator, is a list item whose description is exactly the item |
| DecomposerExample.AfterCue | src/core/decomposer.ts:52-56 | a description starting with "After" carries a sequencing cue (the test is on the lower-cased text) |
| DecomposerExample.NoCue | src/core/decomposer.ts:52-56 | a description with none of the letters f, h, n in either case has no cue |
| Decomposer.ExtractLoopNonBlank | src/core/decomposer.ts:40-71 | over non-blank lines the loop yields exactly one step per line, the k-th step being the line rule applied to line k with k steps before it |
| Decomposer.ExtractLoopEmpty | src/core/decomposer.ts:40-71 | the loop produces no step exactly when every line trims to nothing |
| Decomposer.ExtractSteps | src/core/decomposer.ts:73-81 | the step list is never empty; when every line is blank it is the single dependency-free step holding the lines joined by spaces |
| Decomposer.NonBlank | src/core/decomposer.ts:16 | the kept lines are non-blank and come from the input, and every non-blank input line is kept |
| Decomposer.KeptPositions | src/core/decomposer.ts:16 | the positions listed increase strictly and are exactly the positions of the non-blank lines |
| Decomposer.NonBlankInOrder | src/core/decomposer.ts:16 | the filter's output is the line at each non-blank position, once each, in input order |
| Decomposer.SubTasksOf | src/core/decomposer.ts:21-29 | one sub-task per step, in order: id `task-(k+1)`, pending, no result, times or error, with the step's description and dependencies |
| Decomposer.Decompose | src/core/decomposer.ts:12-32 | at least one sub-task; the k-th is `task-(k+1)`, pending, with no result, times or error |
| Decomposer.DecomposeLineRules | src/core/decomposer.ts:16-79 | for N ≥ 1 non-blank lines there are exactly N sub-tasks, the k-th following the line rule on line k; with none there is one sub-task with description "" and no dependencies |
| Decomposer.DecomposeDependencies | src/core/decomposer.ts:51-69 | a sub-task depends on nothing, or (when not first) only on `task-k`, the step right before it |
| Decomposer.DecomposeIdsDistinct | src/core/decomposer.ts:21-29 | the ids handed out are pairwise distinct |
| Decomposer.DecomposeIsBackwardChain | src/core/decomposer.ts:58-68 | ids are distinct, every dependency names the sub-task right before, and no sub-task has more than one dependency |
| Decomposer.ReadyFrom | src/core/decomposer.ts:94-103 | one scan collects exactly the unprocessed sub-tasks whose dependencies are all processed, in strictly increasing position order |
| Decomposer.Layers | src/core/decomposer.ts:91-112 | every emitted group is non-empty and names positions of the input |
| Decomposer.LayerGrows | src/core/decomposer.ts:105-110 | a non-empty group strictly grows the processed set, which bounds the loop, even with duplicate ids |
| Decomposer.LayersAreScans | src/core/decomposer.ts:87-115 | each group is the scan after all earlier groups, and the loop stops only when everything is processed or a scan finds nothing |
| Decomposer.GroupsNonEmptyOrdered | src/core/decomposer.ts:92-111 | every group is non-empty and keeps input order |
| Decomposer.GroupsDisjoint | src/core/decomposer.ts:94-110 | no sub-task appears in two groups |
| Decomposer.GroupsRespectDependencies | src/core/decomposer.ts:98-101 | every dependency of a grouped sub-task is the id of a sub-task in a strictly earlier group |
| Decomposer.GroupsAreMaximal | src/core/decomposer.ts:94-103 | a group holds every sub-task ready at its scan, not just some of them |
| Decomposer.StuckMeansAllDone | src/core/decomposer.ts:105-108 | on a backward chain, a scan that finds nothing means every id is already processed |
| Decomposer.NoDependenciesOneGroup | src/core/decomposer.ts:91-111 | with no dependencies at all the result is one group of every position, in order |
| Decomposer.ChainGivesSingletons | src/core/decomposer.ts:91-111 | a full chain with distinct ids gives N singleton groups in order |
| Decomposer.LayersCoverChain | src/core/decomposer.ts:91-111 | on a backward chain with distinct ids every sub-task is placed in some group |
| Decomposer.DecomposeGroupsCover | src/core/decomposer.ts:87-115 | on the output of `decompose` the groups cover every sub-task |
| DecomposerExample.ThreeTaskLayers | src/core/decomposer.ts:87-115 | three sub-tasks with distinct ids, where only the second depends (on the first), layer as first and third together, then the second |
| DecomposerExample.DatabaseExampleText | src/core/decomposer.ts:16 | the three bullets "Set up database", "After db, run migrations" and "Deploy", one per line, are that description's text |
| DecomposerExample.SetUpDatabaseItem | src/core/decomposer.ts:44-56 | "Set up database" is a well-formed bullet item without a sequencing cue |
| DecomposerExample.MigrationsItem | src/core/decomposer.ts:44-56 | "After db, run migrations" is a well-formed bullet item with a sequencing cue |
| DecomposerExample.DeployItem | src/core/decomposer.ts:44-56 | "Deploy" is a well-formed bullet item without a sequencing cue |
| DecomposerExample.DatabaseExampleGroups | src/core/decomposer.ts:12-112 | the description "- Set up database", "- After db, run migrations", "- Deploy" runs as two groups: the database and deploy steps first, then the migrations |
| DecomposerExample.OnlyMiddleCueGroups | src/core/decomposer.ts:51-69 | a three-item bullet list in which only the middle item has a cue layers as two groups, items one and three, then item two |
| Executor.ExpandLiteral | src/core/executor.ts:114 | a replacement without `$` is inserted literally |
| Executor.GenerateCommitMessage | src/core/executor.ts:111-115 | a non-empty template without the placeholder comes back unchanged |
| Executor.CommitMessageSubstitutes | src/core/executor.ts:111-115 | with a description without `$`, only the first `{description}` is replaced by the description and the text around it is kept |
| Executor.DefaultCommitMessage | src/core/executor.ts:112-114 | a missing or empty template gives "Complete task: " followed by the description |
| Executor.ExecuteTask | src/core/executor.ts:49-105 | the task always ends completed or failed, with start and end time set and id, description and dependencies kept; staging is called exactly when configured; the result is stored unless the catch branch ran; success equals completion |
| Executor.ExecuteTaskNormalPath | src/core/executor.ts:56-95 | when nothing throws, the stored result is the returned one, success is the verification verdict, the output is "Executed: …", the error is untouched, and the verifier is consulted exactly when verification is enabled |
| Executor.VerificationFailureFailsTask | src/core/executor.ts:68-75 | a failed verification fails the task and its result, and no commit is attempted |
| Executor.CommitRule | src/core/executor.ts:78-86 | a commit is attempted exactly when git and auto-commit are on, staging did not throw and verification did not fail; the message is the generated one; the commit id is stored exactly when staging ran |
| Executor.ExecuteTaskThrowPath | src/core/executor.ts:96-104 | when staging or committing throws, the task fails, records the error, keeps its old result and returns `{success: false, output: "Failed: …"}` |
| Executor.ExecuteAllEffect | src/core/executor.ts:30-32 | running a batch of distinct positions executes each of them once from its old state and leaves every other sub-task alone |
| Executor.SplitChunks | src/core/executor.ts:21-27 | the chunks concatenate to the batch; every chunk is non-empty and at most the chunk size; all but the last have exactly that size; their number is the batch size divided by the chunk size, rounded up; an empty batch has no chunks |
| Executor.ExecuteParallel | src/core/executor.ts:20-33 | the chunk size is min(batch size, `maxParallelTasks`), and running the chunks in order is running every batch member once, in batch order |
| Executor.ExecuteChunk | src/core/executor.ts:30-31 | a chunk runs each of its members once, in order |
| Executor.FirstIndex | src/core/executor.ts:127 | `indexOf` finds the first position holding the task |
| Executor.MarkSkipped | src/core/executor.ts:128-130 | exactly the listed sub-tasks become skipped; nothing else changes |
| Executor.RunUntilFailure | src/core/executor.ts:121-125 | the loop runs the batch in order and stops right after the first failed task; every task before it is completed |
| Executor.ExecuteSequential | src/core/executor.ts:120-134 | for a batch of distinct sub-tasks: everything before the stop is executed and completed, the stopping task is executed and failed, everything after it is skipped, and sub-tasks outside the batch are untouched |
| Executor.SequentialTail | src/core/executor.ts:125-131 | skipping the tail after the failed task keeps what ran and skips exactly the later batch members |
| Verifier.RunTests | src/core/verifier.ts:43-68 | no test record when the command is missing; otherwise one `npm test` record that passes exactly when the command succeeded, and a failure carries "Tests failed: …" |
| Verifier.RunLinting | src/core/verifier.ts:70-99 | no lint result when the command is missing; a failure gives errors 1, warnings 0 and "Linting failed: …"; a success gives 0 and 0 |
| Verifier.RunBuild | src/core/verifier.ts:104-129 | no build result when the command is missing; passes exactly on success, with its duration; a failure carries "Build failed: …" |
| Verifier.FailureMessage | src/core/verifier.ts:145-161 | the failure message is empty exactly when all present checks passed |
| Verifier.FailureMessageNamesFailingChecks | src/core/verifier.ts:145-161 | each category appears exactly when its check is present and failed (for tests: some test failed), in the order tests, linting, build, joined by ", " |
| Verifier.Verify | src/core/verifier.ts:11-38 | when no probe throws, the fields are the probe results, `passed` is `allChecksPassed`, and a message is set exactly when not passed (the failure message); a throw gives not-passed with a "Verification error: " message |
| Verifier.VerifyPassesIff | src/core/verifier.ts:11-38 | verification passes exactly when no probe throws and no available command fails |
| Verifier.NoProbesPasses | src/core/verifier.ts:11-38 | with every probe unavailable the result is passed with nothing recorded |
| Types.CountsPartition | src/core/reporter.ts:19-22 | the five status counts add up to the number of sub-tasks |
| Types.CountZero | src/core/reporter.ts:20-22 | a status count is zero exactly when no entry has that status |
| Reporter.GenerateSubTaskReport | src/core/reporter.ts:36-58 | id, description, status and times are copied; the duration is present exactly when both times are, and is their difference; result and error message are carried over |
| Reporter.FailedLines | src/core/reporter.ts:75-80 | there is one failed-task line per failed report |
| Reporter.FailedLinesExact | src/core/reporter.ts:75-80 | every failed report has its line in the section and every line belongs to a failed report |
| Reporter.GenerateReport | src/core/reporter.ts:13-31 | one sub-task report per sub-task, in order; the total is the number of sub-tasks; completed, failed and skipped never add up to more than the total; times and duration as given |
| Reporter.ReportCounts | src/core/reporter.ts:19-22 | the three counts add up to the total exactly when nothing is pending or in progress; each count is zero exactly when no sub-task has that status |
| Reporter.SummaryAgrees | src/core/reporter.ts:63-83 | the summary opens with the report's own counts, has a "Failed tasks" section exactly when some sub-task failed, and that section holds one line per failed sub-task |
| Reporter.ClockSplit | src/core/reporter.ts:247-249 | hours·3600 + (minutes mod 60)·60 + (seconds mod 60) is the whole-second count; hours are positive from one hour on, minutes from one minute on |
| Reporter.FormatDurationRoundTrip | src/core/reporter.ts:246-258 | for ms ≥ 0 the text reads back as canonical h/m/s components worth ms div 1000 seconds; the "h m s" form appears exactly from one hour on and the "m s" form exactly from one minute up to an hour |
| Reporter.ParseHms | src/core/reporter.ts:252 | the "h m s" text reads back as its three components |
| Reporter.ParseMs | src/core/reporter.ts:254 | the "m s" text reads back as its two components |
| Reporter.FormatDurationInjective | src/core/reporter.ts:246-258 | two non-negative durations print alike exactly when they have the same whole seconds |
| Reporter.GetStatusEmoji | src/core/reporter.ts:263-276 | the pause symbol is returned exactly for pending, through the default branch |
| Reporter.StatusEmojiInjective | src/core/reporter.ts:263-276 | distinct statuses get distinct symbols |
| Reporter.SelectFormat | src/core/reporter.ts:210-219 | JSON exactly for "json", Markdown exactly for "markdown", text for anything else |
| Reporter.DurationLine | src/core/reporter.ts:114-116 | the duration line of an entry (after the text or Markdown heading) is empty exactly when the duration is missing or zero |
| Reporter.DurationLineShown | src/core/reporter.ts:114-116 | an entry differs from the same entry without a duration exactly when the duration is present and non-zero |
| Reporter.EntryNumbering | src/core/reporter.ts:110-111 | an entry opens with its lead, and the number after it reads back as index + 1 followed by ". " and the body |
| Reporter.EntriesNumbered | src/core/reporter.ts:171-172 | both renderings hold one entry per sub-task report, in order, the i-th numbered i + 1 and continuing with that report's body |
| Reporter.PrintReport | src/core/reporter.ts:207-227 | JSON exactly for "json", the Markdown text for "markdown", the plain text otherwise; the output is saved exactly when the log file is a non-empty string |
| TaskRunner.GetStatusSymbol | src/core/task-runner.ts:95-108 | the runner's status symbol is the reporter's status emoji for every status |
| TaskRunner.GetDefaultConfig | src/core/task-runner.ts:121-137 | the defaults: chunks of three, verification off, git on with staging and committing off, branch prefix "task", the template "Complete task: {description}", verbose text reports with no output file |
| TaskRunner.DefaultConfigBehaviour | src/core/task-runner.ts:121-137 | under the defaults a task calls no collaborator and completes with "Executed: …", the report prints as text without saving, and the commit message is "Complete task: " followed by the description |
| TaskRunner.FailingProbeFailsTask | src/core/executor.ts:68-75 | with verification on, a probe that throws or whose command fails makes the task fail and suppresses the commit |
| TaskRunner.ExecuteGroups | src/core/task-runner.ts:53-74 | the groups are executed in order, each once; the loop stops early only after a group with a failure when stopping is asked for, so with the runner's "never stop" policy every group runs |
| TaskRunner.GroupsRunEverything | src/core/task-runner.ts:53-58 | when the layering covers every sub-task, running its groups executes every sub-task exactly once from its initial state |
| TaskRunner.FinishedCounts | src/core/task-runner.ts:80 | when every sub-task ended completed or failed, completed plus failed is the total and nothing is skipped |
| TaskRunner.ExecuteLayers | src/core/task-runner.ts:47-58 | the groups are the layering, and every sub-task is executed once and ends completed or failed |
| TaskRunner.ExecuteDecomposed | src/core/task-runner.ts:34-58 | on a decomposed description every sub-task is executed exactly once and ends completed or failed |
| TaskRunner.Run | src/core/task-runner.ts:26-90 | the run decomposes, layers and executes every sub-task once; the report counts its sub-tasks, with completed plus failed equal to the total; the exit code is 1 exactly when some sub-task failed; the printed output is `printReport` of the report |

## Left out

- Console output is left out. This covers the progress lines of `run`, the
  printed report, and the "Report saved to" message and its `verbose` check.
  The model returns what would be printed or saved.
- `formatAsJson` (`JSON.stringify`) is kept as an uninterpreted "JSON of the
  report" value.
- `saveToFile` is left out, including its write-error branch. The model
  records only which file would be written.
- Time is left out. `new Date()`, `Date.now()` and `toISOString()` become
  parameters: start and end readings, per-sub-task clock values, and an ISO
  renderer.
- `git-manager.ts` is not part of this model. Staging and committing are given
  outcomes: the changes or commit id returned, or the error thrown.
- The verifier's shell probes are left out: `execSync`, `commandExists` and the
  build timer. Each probe run is given as unavailable, succeeded (with its
  duration) or failed (with the error text).
- The executor takes the result of `verify` as an input. The `Verifier` module
  computes that result from the probe runs, and
  `TaskRunner.FailingProbeFailsTask` connects the two.
- In the source every probe catches its own errors, so the `catch` branch of
  `verify` cannot be reached. The model keeps that branch behind a probe call
  that may throw.
- Concurrency is left out. This covers `Promise.all` inside a chunk and the
  shared git working tree. A chunk's members run one after another here, and
  each touches only its own sub-task.
- `src/cli/index.ts` and `src/index.ts` are not part of this model. They hold
  argument parsing, file reads, `parseInt`, `process.exit` and re-exports.
- `executor.ts` records a thrown value as an `Error`. The model keeps only the
  message. A thrown value that is not an `Error` is not modelled.
- Durations and `maxParallelTasks` are integers. JavaScript numbers with a
  fraction are not modelled.
- Executor.ExecuteParallel: requires `maxParallelTasks ≥ 1` for a non-empty
  batch. In the source a zero or negative value never advances the chunking
  loop. A NaN value is not modelled either: `--parallel` with a non-number
  gives NaN through `parseInt`, and then the source pushes one empty chunk
  and stops, so nothing runs and every sub-task stays pending.
- TaskRunner.Run: also requires `maxParallelTasks ≥ 1`, for the same reasons,
  because every group `run` passes on is non-empty. With a NaN value the
  source would report every sub-task as pending and exit with code 0.
- Executor.ExecuteSequential: its per-position promises hold for a batch
  without repeated sub-tasks. Layering groups never repeat a sub-task. With a
  repeat, the source's `indexOf` finds the first copy, and the model keeps only
  the frame and stop-position facts.
