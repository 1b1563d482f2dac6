/**
  The orchestrator (src/core/task-runner.ts): decompose the description,
  layer the sub-tasks into execution groups, run the groups in order through
  the executor, then build, print and judge the report.

  The clock readings of the run and of the `task-<now>` id, the per-position
  collaborator outcomes and `toISOString` are parameters; console output is
  not modelled, and `process.exit(1)` is the returned exit code 1.
*/
module TaskRunner {
  import opened Wrappers
  import opened Strings
  import opened Types
  import Decomposer
  import Verifier
  import Executor
  import Reporter

  /** `getStatusSymbol`: the progress symbol of a status; the same mapping as
      the reporter's `getStatusEmoji`. */
  function GetStatusSymbol(s: TaskStatus): (sym: string)
    ensures sym == Reporter.GetStatusEmoji(s)
  {
    match s
    case Completed => "\U{2705}"
    case Failed => "\U{274C}"
    case InProgress => "\U{23F3}"
    case Skipped => "\U{23ED}\U{FE0F}"
    case Pending => "\U{23F8}\U{FE0F}"
  }

  /** `shouldStopOnFailure`: execution always continues after a failure. */
  function ShouldStopOnFailure(): bool {
    false
  }

  /** `getDefaultConfig`: chunks of three, no verification, git on but neither
      staging nor committing, branch prefix "task", verbose text reports with
      no output file. */
  function GetDefaultConfig(): (c: TaskRunnerConfig)
    ensures c.maxParallelTasks == 3
    ensures !c.verificationEnabled && !Executor.StagingOn(c) && !Executor.CommittingOn(c)
    ensures c.gitIntegration.enabled && c.gitIntegration.branchPrefix == Some("task")
    ensures c.gitIntegration.commitMessageTemplate == Some("Complete task: {description}")
    ensures c.reporting.verbose && c.reporting.outputFormat == "text" && c.reporting.logFile == None
  {
    TaskRunnerConfig(
      3, false,
      GitIntegrationConfig(true, false, false, Some("task"), Some("Complete task: {description}")),
      ReportingConfig(true, "text", None))
  }

  /** Under the default configuration a sub-task calls no collaborator and
      always completes with the simulated output; the report is printed as
      text and not saved; and the configured template is the default one. */
  lemma DefaultConfigBehaviour(task: SubTask, env: Executor.Outcomes, report: TaskReport, iso: nat -> string, description: string)
    requires '$' !in description
    ensures var c := GetDefaultConfig();
      var x := Executor.ExecuteTask(c, task, env);
      && x.calls == [] && x.task.status == Completed
      && x.returned == TaskResult(true, Some("Executed: " + task.description), None, None)
      && Reporter.PrintReport(c.reporting, report, iso) == Reporter.Printed(Reporter.Rendered(Reporter.FormatAsText(report, iso)), None)
      && Executor.GenerateCommitMessage(c.gitIntegration.commitMessageTemplate, description) == "Complete task: " + description
  {
    var c := GetDefaultConfig();
    Executor.CommitMessageSubstitutes(c.gitIntegration.commitMessageTemplate.value, description);
    Executor.DefaultCommitMessage(None, description);
    assert Executor.GenerateCommitMessage(c.gitIntegration.commitMessageTemplate, description)
        == Executor.GenerateCommitMessage(None, description);
  }

  /** The verifier and the executor together: with verification enabled, a
      sub-task whose probe command failed, or whose probe threw, fails, and
      nothing is committed for it. */
  lemma FailingProbeFailsTask(cfg: TaskRunnerConfig, task: SubTask, env: Executor.Outcomes, probes: Verifier.Probes)
    requires cfg.verificationEnabled && env.verification == Verifier.Verify(probes)
    requires || probes.tests.Throws? || probes.lint.Throws? || probes.build.Throws?
             || (probes.tests.Returns? && probes.tests.value.CommandFailed?)
             || (probes.lint.Returns? && probes.lint.value.CommandFailed?)
             || (probes.build.Returns? && probes.build.value.CommandFailed?)
    ensures var x := Executor.ExecuteTask(cfg, task, env);
      && x.task.status == Failed && !x.returned.success
      && forall c :: c in x.calls ==> !c.CommitCall?
  {
    Verifier.VerifyPassesIff(probes);
    Executor.VerificationFailureFailsTask(cfg, task, env);
  }

  // ---------------------------------------------------------------------------
  // The group loop

  /** `group.some(t => t.status === TaskStatus.FAILED)`. */
  predicate SomeFailed(store: seq<SubTask>, g: seq<nat>) {
    exists j :: 0 <= j < |g| && g[j] < |store| && store[g[j]].status == Failed
  }

  /** The loop of `run`: each group goes to `executeParallel`, in group order;
      after a group the loop stops early only when something in it failed and
      `stopOnFailure` holds. Sub-tasks in no group that ran are left alone. */
  method ExecuteGroups(cfg: TaskRunnerConfig, store: seq<SubTask>, groups: seq<seq<nat>>,
                       env: nat -> Executor.Outcomes, stopOnFailure: bool)
    returns (r: seq<SubTask>, ran: nat)
    requires forall i :: 0 <= i < |groups| ==> Executor.AllIn(store, groups[i])
    requires forall i :: 0 <= i < |groups| ==> |groups[i]| == 0 || cfg.maxParallelTasks >= 1
    ensures ran <= |groups| && Executor.AllIn(store, Concat(groups[..ran]))
    ensures r == Executor.ExecuteAll(cfg, store, Concat(groups[..ran]), env)
    ensures forall p :: 0 <= p < |store| && p !in Concat(groups[..ran]) ==> r[p] == store[p]
    ensures !stopOnFailure ==> ran == |groups|
    ensures ran < |groups| ==> ran > 0 && SomeFailed(r, groups[ran - 1])
  {
    AllInConcat(store, groups);
    r := store;
    ran := 0;
    var stop := false;
    while ran < |groups| && !stop
      invariant 0 <= ran <= |groups|
      invariant Executor.AllIn(store, Concat(groups[..ran]))
      invariant r == Executor.ExecuteAll(cfg, store, Concat(groups[..ran]), env)
      invariant stop ==> ran > 0 && SomeFailed(r, groups[ran - 1])
      invariant !stopOnFailure ==> !stop
    {
      Executor.ChunkStep(store, groups, Concat(groups), ran);
      Executor.ExecuteAllAppend(cfg, store, Concat(groups[..ran]), groups[ran], env);
      var chunks;
      r, chunks := Executor.ExecuteParallel(cfg, r, groups[ran], env);
      ran := ran + 1;
      if SomeFailed(r, groups[ran - 1]) && stopOnFailure {
        stop := true;
      }
    }
    Executor.ExecuteAllEffect(cfg, store, Concat(groups[..ran]), env);
  }

  /** Positions of every group are in the store, so are those of their concatenation. */
  lemma {:induction false} AllInConcat(store: seq<SubTask>, groups: seq<seq<nat>>)
    requires forall i :: 0 <= i < |groups| ==> Executor.AllIn(store, groups[i])
    ensures Executor.AllIn(store, Concat(groups))
  {
    if |groups| > 0 {
      var init := groups[..|groups| - 1];
      AllInConcat(store, init);
      var a := Concat(init);
      var b := groups[|groups| - 1];
      assert Concat(groups) == a + b;
      assert forall k :: 0 <= k < |b| ==> (a + b)[|a| + k] == b[k];
    }
  }

  /** A member of some group is in the concatenation of the groups. */
  lemma {:induction false} InConcat(groups: seq<seq<nat>>, i: nat, x: nat)
    requires i < |groups| && x in groups[i]
    ensures x in Concat(groups)
  {
    var init := groups[..|groups| - 1];
    if i < |groups| - 1 {
      InConcat(init, i, x);
    }
    assert Concat(groups) == Concat(init) + groups[|groups| - 1];
  }

  /** A member of the concatenation is a member of some group. */
  lemma {:induction false} ConcatMember(groups: seq<seq<nat>>, x: nat)
    requires x in Concat(groups)
    ensures exists i :: 0 <= i < |groups| && x in groups[i]
  {
    var init := groups[..|groups| - 1];
    assert Concat(groups) == Concat(init) + groups[|groups| - 1];
    if x !in groups[|groups| - 1] {
      ConcatMember(init, x);
      var i :| 0 <= i < |init| && x in init[i];
      assert groups[i] == init[i];
    }
  }

  /** Groups that are each in increasing order and pairwise disjoint concatenate
      to a sequence without repeats. */
  lemma {:induction false} ConcatDistinct(groups: seq<seq<nat>>)
    requires forall i :: 0 <= i < |groups| ==> Decomposer.Increasing(groups[i])
    requires forall i, k, x :: 0 <= i < k < |groups| && x in groups[i] ==> x !in groups[k]
    ensures Executor.Distinct(Concat(groups))
  {
    if |groups| > 0 {
      var init := groups[..|groups| - 1];
      var last := groups[|groups| - 1];
      ConcatDistinct(init);
      var a := Concat(init);
      assert Concat(groups) == a + last;
      forall j | 0 <= j < |a| ensures a[j] !in last {
        ConcatMember(init, a[j]);
        var i :| 0 <= i < |init| && a[j] in init[i];
        assert a[j] in groups[i];
      }
      var s := a + last;
      forall u, v | 0 <= u < v < |s| ensures s[u] != s[v] {
        if v < |a| {
          assert s[u] == a[u] && s[v] == a[v];
        } else if u < |a| {
          assert s[u] == a[u] && s[v] == last[v - |a|];
        } else {
          assert Decomposer.Increasing(last);
          assert s[u] == last[u - |a|] && s[v] == last[v - |a|];
        }
      }
    }
  }

  /** The layering of `tasks` places every sub-task in some group. */
  predicate LayersCover(tasks: seq<SubTask>) {
    forall x :: 0 <= x < |tasks| ==> Decomposer.Placed(Decomposer.GetParallelizableGroups(tasks), x)
  }

  /** When the layering covers every sub-task, running its groups executes every
      sub-task exactly once, from its state before the run. */
  lemma GroupsRunEverything(cfg: TaskRunnerConfig, subTasks: seq<SubTask>, env: nat -> Executor.Outcomes)
    requires LayersCover(subTasks)
    ensures var all := Concat(Decomposer.GetParallelizableGroups(subTasks));
      && Executor.AllIn(subTasks, all)
      && forall p :: 0 <= p < |subTasks| ==>
           Executor.ExecuteAll(cfg, subTasks, all, env)[p] == Executor.ExecuteTask(cfg, subTasks[p], env(p)).task
  {
    var groups := Decomposer.GetParallelizableGroups(subTasks);
    var all := Concat(groups);
    assert forall i :: 0 <= i < |groups| ==> Executor.AllIn(subTasks, groups[i]);
    AllInConcat(subTasks, groups);
    Decomposer.GroupsNonEmptyOrdered(subTasks);
    Decomposer.GroupsDisjoint(subTasks);
    ConcatDistinct(groups);
    forall p | 0 <= p < |subTasks| ensures p in all {
      assert Decomposer.Placed(groups, p);
      var i :| 0 <= i < |groups| && p in groups[i];
      InConcat(groups, i, p);
    }
    Executor.ExecuteAllEffect(cfg, subTasks, all, env);
  }

  /** When every sub-task is completed or failed, those two counts make up the total and nothing is skipped. */
  lemma FinishedCounts(task: Task, start: nat, end: nat)
    requires forall p :: 0 <= p < |task.subTasks| ==> task.subTasks[p].status == Completed || task.subTasks[p].status == Failed
    ensures var r := Reporter.GenerateReport(task, start, end);
      r.completedSubTasks + r.failedSubTasks == r.totalSubTasks && r.skippedSubTasks == 0
  {
    Reporter.ReportCounts(task, start, end);
  }

  // ---------------------------------------------------------------------------
  // run

  /** Everything `run` produces: the task object, the execution groups, the
      report, what was printed, and the exit code. */
  datatype RunOutcome = RunOutcome(
    task: Task,
    groups: seq<seq<nat>>,
    report: TaskReport,
    printed: Reporter.Printed,
    exitCode: int)

  /** `run`. Every decomposed sub-task lands in exactly one group, so each is
      executed exactly once from its pending state; afterwards each is completed
      or failed, the report's completed and failed counts make up the total,
      nothing is skipped, and the exit code is 1 exactly when something failed. */
  method Run(cfg: TaskRunnerConfig, description: string, start: nat, idClock: nat, end: nat,
             env: nat -> Executor.Outcomes, iso: nat -> string)
    returns (out: RunOutcome)
    requires cfg.maxParallelTasks >= 1
    ensures var initial := Decomposer.Decompose(description);
      && out.task.id == "task-" + NatToString(idClock)
      && out.task.description == description && out.task.config == cfg
      && out.groups == Decomposer.GetParallelizableGroups(initial)
      && |out.task.subTasks| == |initial|
      && forall p :: 0 <= p < |initial| ==> out.task.subTasks[p] == Executor.ExecuteTask(cfg, initial[p], env(p)).task
    ensures out.report == Reporter.GenerateReport(out.task, start, end)
    ensures out.report.completedSubTasks + out.report.failedSubTasks == out.report.totalSubTasks
    ensures out.report.skippedSubTasks == 0
    ensures out.exitCode == 1 <==> out.report.failedSubTasks > 0
    ensures out.exitCode == 0 <==> out.report.failedSubTasks == 0
    ensures out.printed == Reporter.PrintReport(cfg.reporting, out.report, iso)
  {
    var groups, executed := ExecuteDecomposed(cfg, description, env);
    var task := Task("task-" + NatToString(idClock), description, executed, cfg);
    var report := Reporter.GenerateReport(task, start, end);
    FinishedCounts(task, start, end);
    var exitCode := if report.failedSubTasks > 0 then 1 else 0;
    out := RunOutcome(task, groups, report, Reporter.PrintReport(cfg.reporting, report, iso), exitCode);
  }

  /** Steps 1 to 3 of `run`: decompose, layer, and run every group in order. */
  method ExecuteDecomposed(cfg: TaskRunnerConfig, description: string, env: nat -> Executor.Outcomes)
    returns (groups: seq<seq<nat>>, executed: seq<SubTask>)
    requires cfg.maxParallelTasks >= 1
    ensures var initial := Decomposer.Decompose(description);
      && groups == Decomposer.GetParallelizableGroups(initial)
      && |executed| == |initial|
      && (forall p :: 0 <= p < |initial| ==> executed[p] == Executor.ExecuteTask(cfg, initial[p], env(p)).task)
      && (forall p :: 0 <= p < |executed| ==> executed[p].status == Completed || executed[p].status == Failed)
  {
    var subTasks := Decomposer.Decompose(description);
    Decomposer.DecomposeGroupsCover(description);
    groups, executed := ExecuteLayers(cfg, subTasks, env);
  }

  /** Steps 2 and 3 of `run`: layer the sub-tasks and run every group in order;
      the loop never stops early. When the layering covers every sub-task, each
      has been executed once afterwards and is completed or failed. */
  method ExecuteLayers(cfg: TaskRunnerConfig, subTasks: seq<SubTask>, env: nat -> Executor.Outcomes)
    returns (groups: seq<seq<nat>>, executed: seq<SubTask>)
    requires cfg.maxParallelTasks >= 1 && LayersCover(subTasks)
    ensures groups == Decomposer.GetParallelizableGroups(subTasks)
    ensures |executed| == |subTasks|
    ensures forall p :: 0 <= p < |subTasks| ==> executed[p] == Executor.ExecuteTask(cfg, subTasks[p], env(p)).task
    ensures forall p :: 0 <= p < |executed| ==> executed[p].status == Completed || executed[p].status == Failed
  {
    groups := Decomposer.GetParallelizableGroups(subTasks);
    assert forall i :: 0 <= i < |groups| ==> Executor.AllIn(subTasks, groups[i]);
    var ran;
    executed, ran := ExecuteGroups(cfg, subTasks, groups, env, ShouldStopOnFailure());
    assert groups[..ran] == groups;
    GroupsRunEverything(cfg, subTasks, env);
    forall p | 0 <= p < |executed| ensures executed[p].status == Completed || executed[p].status == Failed {
      assert executed[p] == Executor.ExecuteTask(cfg, subTasks[p], env(p)).task;
    }
  }
}
