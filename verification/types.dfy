/**
  The records of the task runner: sub-tasks and their statuses, execution
  results, verification results, configuration and reports. Dates are
  abstract millisecond clock readings (`nat`); an `Error` object is
  represented by its message.
*/
module Types {
  import opened Wrappers

  datatype TaskStatus = Pending | InProgress | Completed | Failed | Skipped

  /** The string value of each enum member (what `${status}` prints). */
  function StatusName(s: TaskStatus): string {
    match s
    case Pending => "pending"
    case InProgress => "in_progress"
    case Completed => "completed"
    case Failed => "failed"
    case Skipped => "skipped"
  }

  datatype TestResult = TestResult(name: string, passed: bool, duration: Option<int>, error: Option<string>)

  datatype LintingResult = LintingResult(passed: bool, errors: int, warnings: int, details: Option<string>)

  datatype BuildResult = BuildResult(passed: bool, duration: Option<int>, error: Option<string>)

  datatype VerificationResult = VerificationResult(
    passed: bool,
    tests: Option<seq<TestResult>>,
    linting: Option<LintingResult>,
    build: Option<BuildResult>,
    message: Option<string>)

  datatype GitChanges = GitChanges(
    branch: Option<string>,
    filesChanged: seq<string>,
    commit: Option<string>,
    diff: Option<string>)

  datatype TaskResult = TaskResult(
    success: bool,
    output: Option<string>,
    verification: Option<VerificationResult>,
    gitChanges: Option<GitChanges>)

  /** A unit of decomposed work. `error` holds the message of the recorded `Error`. */
  datatype SubTask = SubTask(
    id: string,
    description: string,
    dependencies: seq<string>,
    status: TaskStatus,
    result: Option<TaskResult>,
    startTime: Option<nat>,
    endTime: Option<nat>,
    error: Option<string>)

  datatype GitIntegrationConfig = GitIntegrationConfig(
    enabled: bool,
    autoCommit: bool,
    autoStage: bool,
    branchPrefix: Option<string>,
    commitMessageTemplate: Option<string>)

  /** `outputFormat` is kept as free text: a configuration file may hold any string there. */
  datatype ReportingConfig = ReportingConfig(verbose: bool, outputFormat: string, logFile: Option<string>)

  /** `maxParallelTasks` is a JavaScript number; the model keeps its integer values. */
  datatype TaskRunnerConfig = TaskRunnerConfig(
    maxParallelTasks: int,
    verificationEnabled: bool,
    gitIntegration: GitIntegrationConfig,
    reporting: ReportingConfig)

  datatype Task = Task(id: string, description: string, subTasks: seq<SubTask>, config: TaskRunnerConfig)

  datatype SubTaskReport = SubTaskReport(
    id: string,
    description: string,
    status: TaskStatus,
    startTime: Option<nat>,
    endTime: Option<nat>,
    duration: Option<int>,
    result: Option<TaskResult>,
    error: Option<string>)

  datatype TaskReport = TaskReport(
    taskId: string,
    description: string,
    totalSubTasks: nat,
    completedSubTasks: nat,
    failedSubTasks: nat,
    skippedSubTasks: nat,
    startTime: nat,
    endTime: Option<nat>,
    duration: Option<int>,
    subTaskReports: seq<SubTaskReport>,
    summary: string)

  /** What a call into an asynchronous collaborator did: returned a value or threw an `Error`. */
  datatype Call<T> = Returns(value: T) | Throws(message: string)

  /** `${error}` for an `Error` whose message is `message`. */
  function ErrorText(message: string): string {
    if message == "" then "Error" else "Error: " + message
  }

  /** Number of entries of `statuses` equal to `s` (the source's `filter(...).length`). */
  function CountStatus(statuses: seq<TaskStatus>, s: TaskStatus): (n: nat)
    ensures n <= |statuses|
  {
    if |statuses| == 0 then 0
    else CountStatus(statuses[..|statuses| - 1], s) + (if statuses[|statuses| - 1] == s then 1 else 0)
  }

  /** The five status counts partition the sequence. */
  lemma {:induction false} CountsPartition(statuses: seq<TaskStatus>)
    ensures CountStatus(statuses, Pending) + CountStatus(statuses, InProgress) + CountStatus(statuses, Completed)
            + CountStatus(statuses, Failed) + CountStatus(statuses, Skipped) == |statuses|
  {
    if |statuses| > 0 {
      CountsPartition(statuses[..|statuses| - 1]);
    }
  }

  /** A count is zero exactly when no entry has that status. */
  lemma {:induction false} CountZero(statuses: seq<TaskStatus>, s: TaskStatus)
    ensures CountStatus(statuses, s) == 0 <==> forall i :: 0 <= i < |statuses| ==> statuses[i] != s
  {
    if |statuses| > 0 {
      CountZero(statuses[..|statuses| - 1], s);
      var init := statuses[..|statuses| - 1];
      assert forall i :: 0 <= i < |init| ==> init[i] == statuses[i];
    }
  }

  /** `CountZero` stated over the sub-tasks themselves. */
  lemma TaskCountZero(tasks: seq<SubTask>, s: TaskStatus)
    ensures CountStatus(StatusesOf(tasks), s) == 0 <==> forall i :: 0 <= i < |tasks| ==> tasks[i].status != s
  {
    CountZero(StatusesOf(tasks), s);
  }

  function StatusesOf(tasks: seq<SubTask>): (r: seq<TaskStatus>)
    ensures |r| == |tasks| && forall i :: 0 <= i < |tasks| ==> r[i] == tasks[i].status
  {
    seq(|tasks|, i requires 0 <= i < |tasks| => tasks[i].status)
  }
}
