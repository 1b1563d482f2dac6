/**
  The task executor (src/core/executor.ts): the per-sub-task state machine
  `executeTask`, the commit message template, the chunked batch executor
  `executeParallel` and the fail-fast `executeSequential`.

  The collaborators are given per sub-task as `Outcomes`: the clock readings
  taken when the task starts and ends, what staging returns or throws, what
  the verifier's `verify` resolves to (it catches its own failures; the
  verifier module computes it from the probe runs), and what committing
  returns or throws. Sub-tasks
  live in one store, a `seq<SubTask>`; a batch is a sequence of positions in it.
*/
module Executor {
  import opened Wrappers
  import opened Strings
  import opened Types

  /** What the collaborators do while sub-task `task` runs. */
  datatype Outcomes = Outcomes(
    start: nat,
    end: nat,
    stage: Call<GitChanges>,
    verification: VerificationResult,
    commit: Call<string>)

  /** A collaborator call made by `executeTask`, in the order made. */
  datatype Collab = StageCall | VerifyCall | CommitCall(message: string)

  /** The sub-task after `executeTask`, the result it returns, and the calls it made. */
  datatype Execution = Execution(task: SubTask, returned: TaskResult, calls: seq<Collab>)

  // ---------------------------------------------------------------------------
  // Commit message

  const DefaultTemplate: string := "Complete task: {description}"
  const Placeholder: string := "{description}"

  /** The replacement string of `String.prototype.replace` with a string pattern:
      `$$`, `$&`, `` $` `` and `$'` are special; with no capture groups every other
      `$` stands for itself. */
  function Expand(replacement: string, matched: string, before: string, after: string): (r: string)
    decreases |replacement|
  {
    if |replacement| == 0 then ""
    else if replacement[0] == '$' && |replacement| >= 2 && replacement[1] in {'$', '&', '`', '\''} then
      var piece := match replacement[1]
        case '$' => "$"
        case '&' => matched
        case '`' => before
        case _ => after;
      piece + Expand(replacement[2..], matched, before, after)
    else [replacement[0]] + Expand(replacement[1..], matched, before, after)
  }

  /** A replacement without `$` is inserted literally. */
  lemma {:induction false} ExpandLiteral(replacement: string, matched: string, before: string, after: string)
    requires '$' !in replacement
    ensures Expand(replacement, matched, before, after) == replacement
  {
    if |replacement| > 0 {
      assert replacement[0] != '$';
      ExpandLiteral(replacement[1..], matched, before, after);
    }
  }

  /** `s.replace(pattern, replacement)` for a string pattern: only the first occurrence. */
  function ReplaceFirst(s: string, pattern: string, replacement: string): (r: string)
  {
    match IndexOf(s, pattern)
    case None => s
    case Some(q) =>
      s[..q] + Expand(replacement, pattern, s[..q], s[q + |pattern|..]) + s[q + |pattern|..]
  }

  /** `generateCommitMessage`: the template (the default when it is missing or
      empty) with its first `{description}` replaced by the description. */
  function GenerateCommitMessage(template: Option<string>, description: string): (m: string)
    ensures !Contains(template.GetOr(""), Placeholder) && template.GetOr("") != "" ==> m == template.value
  {
    var t := if template.None? || template.value == "" then DefaultTemplate else template.value;
    ReplaceFirst(t, Placeholder, description)
  }

  /** For a description without `$`, the first placeholder is replaced by the
      description itself and the text around it is kept. */
  lemma CommitMessageSubstitutes(template: string, description: string)
    requires '$' !in description && template != ""
    ensures Contains(template, Placeholder) ==>
              exists q: nat :: OccursAt(template, Placeholder, q)
                && (forall q': nat :: q' < q ==> !OccursAt(template, Placeholder, q'))
                && GenerateCommitMessage(Some(template), description)
                   == template[..q] + description + template[q + |Placeholder|..]
  {
    if Contains(template, Placeholder) {
      var q := IndexOf(template, Placeholder).value;
      ExpandLiteral(description, Placeholder, template[..q], template[q + |Placeholder|..]);
    }
  }

  /** A missing or empty template gives "Complete task: " followed by the description. */
  lemma DefaultCommitMessage(template: Option<string>, description: string)
    requires template.None? || template.value == ""
    requires '$' !in description
    ensures GenerateCommitMessage(template, description) == "Complete task: " + description
  {
    var t := DefaultTemplate;
    assert OccursAt(t, Placeholder, 15);
    forall q: nat | q < 15 ensures !OccursAt(t, Placeholder, q) {
      assert t[q] != '{';
    }
    ExpandLiteral(description, Placeholder, t[..15], t[28..]);
    assert t[..15] == "Complete task: ";
    assert t[28..] == "";
  }

  // ---------------------------------------------------------------------------
  // executeTask

  /** The git configuration asks for staging. */
  predicate StagingOn(cfg: TaskRunnerConfig) {
    cfg.gitIntegration.enabled && cfg.gitIntegration.autoStage
  }

  /** The git configuration asks for committing (a successful task). */
  predicate CommittingOn(cfg: TaskRunnerConfig) {
    cfg.gitIntegration.enabled && cfg.gitIntegration.autoCommit
  }

  /** The `catch` branch: the task fails, records the error, keeps its old result. */
  function Catch(started: SubTask, message: string, end: nat, calls: seq<Collab>): Execution {
    Execution(
      started.(status := Failed, error := Some(message), endTime := Some(end)),
      TaskResult(false, Some("Failed: " + ErrorText(message)), None, None),
      calls)
  }

  /** `executeTask`. The work itself is the source's fixed simulation: it
      succeeds with output "Executed: <description>". Then staging, verification
      and committing run as configured; a throw from any of them ends in the
      `catch` branch. */
  function ExecuteTask(cfg: TaskRunnerConfig, task: SubTask, env: Outcomes): (x: Execution)
    ensures x.task.status == Completed || x.task.status == Failed
    ensures x.task.startTime == Some(env.start) && x.task.endTime == Some(env.end)
    ensures x.task.id == task.id && x.task.description == task.description
            && x.task.dependencies == task.dependencies
    ensures (StageCall in x.calls) <==> StagingOn(cfg)
    ensures x.task.result == Some(x.returned) || (x.task.result == task.result && x.task.status == Failed)
    ensures x.task.error != task.error ==> x.task.status == Failed && !x.returned.success
    ensures x.returned.success <==> x.task.status == Completed
  {
    var started := task.(status := InProgress, startTime := Some(env.start));
    var stageCalls := if StagingOn(cfg) then [StageCall] else [];
    if StagingOn(cfg) && env.stage.Throws? then Catch(started, env.stage.message, env.end, stageCalls)
    else
      var changes := if StagingOn(cfg) then Some(env.stage.value) else None;
      var verification := if cfg.verificationEnabled then Some(env.verification) else None;
      var verifyCalls := if cfg.verificationEnabled then [VerifyCall] else [];
      var success := verification.None? || verification.value.passed;
      var afterVerify := if success then started else started.(status := Failed);
      var message := GenerateCommitMessage(cfg.gitIntegration.commitMessageTemplate, task.description);
      var commitCalls := if CommittingOn(cfg) && success then [CommitCall(message)] else [];
      var calls := stageCalls + verifyCalls + commitCalls;
      if CommittingOn(cfg) && success && env.commit.Throws? then
        Catch(afterVerify, env.commit.message, env.end, calls)
      else
        var committed :=
          if CommittingOn(cfg) && success && changes.Some? then Some(changes.value.(commit := Some(env.commit.value)))
          else changes;
        var result := TaskResult(success, Some("Executed: " + task.description), verification, committed);
        Execution(
          afterVerify.(status := if success then Completed else afterVerify.status,
                       result := Some(result), endTime := Some(env.end)),
          result, calls)
  }

  /** Some collaborator call threw. */
  predicate Threw(cfg: TaskRunnerConfig, env: Outcomes) {
    || (StagingOn(cfg) && env.stage.Throws?)
    || (CommittingOn(cfg) && VerdictOk(cfg, env) && env.commit.Throws?)
  }

  /** Verification is off or passed. */
  predicate VerdictOk(cfg: TaskRunnerConfig, env: Outcomes) {
    !cfg.verificationEnabled || env.verification.passed
  }

  /** The normal path: the stored result is the returned one, success is the
      verification verdict, the output reports the work, the recorded error is
      untouched, and the verifier runs exactly when verification is enabled. */
  lemma ExecuteTaskNormalPath(cfg: TaskRunnerConfig, task: SubTask, env: Outcomes)
    requires !Threw(cfg, env)
    ensures var x := ExecuteTask(cfg, task, env);
      && x.task.result == Some(x.returned)
      && (x.returned.success <==> VerdictOk(cfg, env))
      && x.returned.output == Some("Executed: " + task.description)
      && x.task.error == task.error
      && (VerifyCall in x.calls <==> cfg.verificationEnabled)
      && (x.returned.verification.Some? <==> cfg.verificationEnabled)
  {
  }

  /** A failed verification fails the task whatever the work did, and nothing is committed. */
  lemma VerificationFailureFailsTask(cfg: TaskRunnerConfig, task: SubTask, env: Outcomes)
    requires cfg.verificationEnabled && !env.verification.passed
    ensures var x := ExecuteTask(cfg, task, env);
      && x.task.status == Failed && !x.returned.success
      && forall c :: c in x.calls ==> !c.CommitCall?
  {
  }

  /** A commit is attempted exactly when git is enabled, auto-commit is on,
      staging did not throw and the task is still successful after verification;
      its message is the generated one. The commit id is stored only when
      staging ran and produced changes. */
  lemma CommitRule(cfg: TaskRunnerConfig, task: SubTask, env: Outcomes)
    ensures var x := ExecuteTask(cfg, task, env);
      var attempted := CommittingOn(cfg) && VerdictOk(cfg, env) && !(StagingOn(cfg) && env.stage.Throws?);
      && ((exists c :: c in x.calls && c.CommitCall?) <==> attempted)
      && (attempted ==>
            CommitCall(GenerateCommitMessage(cfg.gitIntegration.commitMessageTemplate, task.description)) in x.calls)
      && (attempted && !Threw(cfg, env) ==>
            (x.returned.gitChanges.Some? <==> StagingOn(cfg))
            && (StagingOn(cfg) ==> x.returned.gitChanges.value.commit == Some(env.commit.value)))
  {
    var x := ExecuteTask(cfg, task, env);
    var attempted := CommittingOn(cfg) && VerdictOk(cfg, env) && !(StagingOn(cfg) && env.stage.Throws?);
    if attempted {
      var m := GenerateCommitMessage(cfg.gitIntegration.commitMessageTemplate, task.description);
      assert CommitCall(m) in x.calls;
    }
  }

  /** The exception path: when staging or committing throws, the task fails with
      the error recorded, returns a failed result naming the error, and keeps
      whatever result it had before. */
  lemma ExecuteTaskThrowPath(cfg: TaskRunnerConfig, task: SubTask, env: Outcomes)
    requires Threw(cfg, env)
    ensures var x := ExecuteTask(cfg, task, env);
      var message := if StagingOn(cfg) && env.stage.Throws? then env.stage.message else env.commit.message;
      && x.task.status == Failed
      && x.task.error == Some(message)
      && x.task.result == task.result
      && x.returned == TaskResult(false, Some("Failed: " + ErrorText(message)), None, None)
  {
  }

  // ---------------------------------------------------------------------------
  // Batches

  predicate AllIn(store: seq<SubTask>, ps: seq<nat>) {
    forall i :: 0 <= i < |ps| ==> ps[i] < |store|
  }

  /** Run `executeTask` on the sub-task at position `p`. */
  function ExecuteAt(cfg: TaskRunnerConfig, store: seq<SubTask>, p: nat, env: nat -> Outcomes): (r: seq<SubTask>)
    requires p < |store|
    ensures |r| == |store|
  {
    store[p := ExecuteTask(cfg, store[p], env(p)).task]
  }

  /** Run `executeTask` on the positions `ps`, one after another. */
  function ExecuteAll(cfg: TaskRunnerConfig, store: seq<SubTask>, ps: seq<nat>, env: nat -> Outcomes): (r: seq<SubTask>)
    requires AllIn(store, ps)
    ensures |r| == |store|
  {
    if |ps| == 0 then store
    else ExecuteAt(cfg, ExecuteAll(cfg, store, ps[..|ps| - 1], env), ps[|ps| - 1], env)
  }

  predicate Distinct(ps: seq<nat>) {
    forall i, j :: 0 <= i < j < |ps| ==> ps[i] != ps[j]
  }

  /** Running a batch of distinct positions executes each of them exactly once,
      from its state before the batch, and leaves every other sub-task alone. */
  lemma {:induction false} ExecuteAllEffect(cfg: TaskRunnerConfig, store: seq<SubTask>, ps: seq<nat>, env: nat -> Outcomes)
    requires AllIn(store, ps)
    ensures var r := ExecuteAll(cfg, store, ps, env);
      && (forall p :: 0 <= p < |store| && p !in ps ==> r[p] == store[p])
      && (Distinct(ps) ==> forall p :: 0 <= p < |store| && p in ps ==> r[p] == ExecuteTask(cfg, store[p], env(p)).task)
  {
    if |ps| > 0 {
      var init := ps[..|ps| - 1];
      var last := ps[|ps| - 1];
      assert forall i :: 0 <= i < |init| ==> init[i] == ps[i];
      ExecuteAllEffect(cfg, store, init, env);
      forall p | 0 <= p < |store| && p !in ps
        ensures ExecuteAll(cfg, store, ps, env)[p] == store[p]
      {
        assert p !in init;
      }
      if Distinct(ps) {
        assert last !in init;
        forall p | 0 <= p < |store| && p in ps
          ensures ExecuteAll(cfg, store, ps, env)[p] == ExecuteTask(cfg, store[p], env(p)).task
        {
          if p != last {
            var i :| 0 <= i < |ps| && ps[i] == p;
            assert p in init;
          }
        }
      }
    }
  }

  /** Running the first `i + 1` positions is running the first `i` and then position `i`. */
  lemma ExecuteAllStep(cfg: TaskRunnerConfig, store: seq<SubTask>, ps: seq<nat>, i: nat, env: nat -> Outcomes)
    requires AllIn(store, ps) && i < |ps|
    ensures AllIn(store, ps[..i]) && AllIn(store, ps[..i + 1])
    ensures ExecuteAll(cfg, store, ps[..i + 1], env) == ExecuteAt(cfg, ExecuteAll(cfg, store, ps[..i], env), ps[i], env)
  {
    assert ps[..i + 1][..i] == ps[..i];
  }

  /** Running `a` then `b` is running `a + b`. */
  lemma {:induction false} ExecuteAllAppend(cfg: TaskRunnerConfig, store: seq<SubTask>, a: seq<nat>, b: seq<nat>, env: nat -> Outcomes)
    requires AllIn(store, a) && AllIn(store, b)
    ensures AllIn(store, a + b)
    ensures ExecuteAll(cfg, store, a + b, env) == ExecuteAll(cfg, ExecuteAll(cfg, store, a, env), b, env)
  {
    if |b| == 0 {
      assert a + b == a;
    } else {
      var b' := b[..|b| - 1];
      assert (a + b)[..|a + b| - 1] == a + b';
      assert (a + b)[|a + b| - 1] == b[|b| - 1];
      ExecuteAllAppend(cfg, store, a, b', env);
    }
  }

  function Min(a: int, b: int): int {
    if a <= b then a else b
  }

  /** The chunk that starts at `i`: `tasks.slice(i, i + size)`. */
  function ChunkAt(ps: seq<nat>, i: nat, size: nat): seq<nat>
    requires i <= |ps|
  {
    ps[i..Min(i + size, |ps|)]
  }

  /** The chunking loop of `executeParallel`: `tasks.slice(i, i + size)` for
      `i = 0, size, 2*size, ...` while `i` is below the batch size. The number
      of chunks is the batch size divided by `size`, rounded up. */
  method SplitChunks(group: seq<nat>, size: int) returns (chunks: seq<seq<nat>>)
    requires |group| == 0 || size >= 1
    ensures Concat(chunks) == group
    ensures |group| == 0 ==> chunks == []
    ensures |group| > 0 ==>
              && (|chunks| - 1) * size < |group| <= |chunks| * size
              && (forall c :: 0 <= c < |chunks| ==> 0 < |chunks[c]| <= size)
              && (forall c :: 0 <= c < |chunks| - 1 ==> |chunks[c]| == size)
  {
    chunks := [];
    if |group| == 0 {
      return;
    }
    var i := 0;
    assert group[..0] == [];
    while i < |group|
      invariant ChunksSoFar(group, chunks, i, size)
      decreases |group| - i
    {
      ChunksStep(group, chunks, i, size);
      chunks := chunks + [ChunkAt(group, i, size)];
      i := i + size;
    }
    ChunksDone(group, chunks, i, size);
  }

  /** The state of the chunking loop after `|chunks|` rounds, when it has
      reached index `i` of the batch. */
  predicate ChunksSoFar(group: seq<nat>, chunks: seq<seq<nat>>, i: int, size: int) {
    && size >= 1 && |group| > 0
    && i == |chunks| * size
    && (i <= |group| ==> Concat(chunks) == group[..i])
    && (i > |group| ==> Concat(chunks) == group && |chunks| > 0)
    && (forall c :: 0 <= c < |chunks| ==> 0 < |chunks[c]| <= size)
    && (forall c :: 0 <= c < |chunks| - 1 ==> |chunks[c]| == size)
    && (|chunks| > 0 ==> (|chunks| - 1) * size < |group|)
    && (|chunks| > 0 && i <= |group| ==> |chunks[|chunks| - 1]| == size)
  }

  /** One round of the chunking loop keeps its state. */
  lemma ChunksStep(group: seq<nat>, chunks: seq<seq<nat>>, i: int, size: int)
    requires ChunksSoFar(group, chunks, i, size) && 0 <= i < |group|
    ensures ChunksSoFar(group, chunks + [ChunkAt(group, i, size)], i + size, size)
  {
    var chunk := ChunkAt(group, i, size);
    assert group[..Min(i + size, |group|)] == group[..i] + chunk;
    ConcatAppend(chunks, [chunk]);
    ConcatSingle(chunk);
    assert (|chunks| + 1) * size == |chunks| * size + size;
  }

  /** When the loop ends, the chunks cover the batch. */
  lemma ChunksDone(group: seq<nat>, chunks: seq<seq<nat>>, i: int, size: int)
    requires ChunksSoFar(group, chunks, i, size) && i >= |group|
    ensures Concat(chunks) == group
    ensures (|chunks| - 1) * size < |group| <= |chunks| * size
  {
    if i == |group| {
      assert group[..i] == group;
    }
  }

  /** `executeParallel`: split the batch into chunks of `min(batch size,
      maxParallelTasks)` and run the chunks in order. Within a chunk the source
      starts all members together; they touch disjoint sub-tasks, so they are
      run one after another here. */
  method ExecuteParallel(cfg: TaskRunnerConfig, store: seq<SubTask>, group: seq<nat>, env: nat -> Outcomes)
    returns (r: seq<SubTask>, chunks: seq<seq<nat>>)
    requires AllIn(store, group)
    requires |group| == 0 || cfg.maxParallelTasks >= 1
    ensures Concat(chunks) == group
    ensures |group| == 0 ==> chunks == []
    ensures |group| > 0 ==>
              var size := Min(|group|, cfg.maxParallelTasks);
              && (|chunks| - 1) * size < |group| <= |chunks| * size
              && (forall c :: 0 <= c < |chunks| ==> 0 < |chunks[c]| <= size)
              && (forall c :: 0 <= c < |chunks| - 1 ==> |chunks[c]| == size)
    ensures r == ExecuteAll(cfg, store, group, env)
  {
    chunks := SplitChunks(group, Min(|group|, cfg.maxParallelTasks));
    r := store;
    var c := 0;
    while c < |chunks|
      invariant 0 <= c <= |chunks|
      invariant AllIn(store, Concat(chunks[..c]))
      invariant r == ExecuteAll(cfg, store, Concat(chunks[..c]), env)
    {
      ChunkStep(store, chunks, group, c);
      ExecuteAllAppend(cfg, store, Concat(chunks[..c]), chunks[c], env);
      r := ExecuteChunk(cfg, r, chunks[c], env);
      c := c + 1;
    }
    assert chunks[..c] == chunks;
  }

  /** Moving on to chunk `c`: everything run so far and the chunk itself are in the store. */
  lemma ChunkStep(store: seq<SubTask>, chunks: seq<seq<nat>>, group: seq<nat>, c: nat)
    requires AllIn(store, group) && Concat(chunks) == group && c < |chunks|
    ensures AllIn(store, Concat(chunks[..c])) && AllIn(store, chunks[c])
    ensures Concat(chunks[..c + 1]) == Concat(chunks[..c]) + chunks[c]
  {
    ConcatPrefixIn(store, chunks, group, c + 1);
    ConcatSnoc(chunks, c);
    AppendIn(store, Concat(chunks[..c]), chunks[c]);
  }

  /** Both halves of an in-range concatenation are in range. */
  lemma AppendIn(store: seq<SubTask>, a: seq<nat>, b: seq<nat>)
    requires AllIn(store, a + b)
    ensures AllIn(store, a) && AllIn(store, b)
  {
    forall j | 0 <= j < |a| ensures a[j] < |store| {
      assert (a + b)[j] == a[j];
    }
    forall j | 0 <= j < |b| ensures b[j] < |store| {
      assert (a + b)[|a| + j] == b[j];
    }
  }

  lemma ConcatSnoc<T>(xs: seq<seq<T>>, c: nat)
    requires c < |xs|
    ensures Concat(xs[..c + 1]) == Concat(xs[..c]) + xs[c]
  {
    assert xs[..c + 1] == xs[..c] + [xs[c]];
    ConcatAppend(xs[..c], [xs[c]]);
    ConcatSingle(xs[c]);
  }

  /** The members of one chunk, one after another. */
  method ExecuteChunk(cfg: TaskRunnerConfig, r0: seq<SubTask>, chunk: seq<nat>, env: nat -> Outcomes)
    returns (r: seq<SubTask>)
    requires AllIn(r0, chunk)
    ensures r == ExecuteAll(cfg, r0, chunk, env)
  {
    r := r0;
    var k := 0;
    while k < |chunk|
      invariant 0 <= k <= |chunk|
      invariant r == ExecuteAll(cfg, r0, chunk[..k], env)
    {
      assert chunk[..k + 1][..k] == chunk[..k];
      r := ExecuteAt(cfg, r, chunk[k], env);
      k := k + 1;
    }
    assert chunk[..k] == chunk;
  }

  /** Concatenation distributes over `+`. */
  lemma {:induction false} ConcatAppend<T>(x: seq<seq<T>>, y: seq<seq<T>>)
    ensures Concat(x + y) == Concat(x) + Concat(y)
  {
    if |y| == 0 {
      assert x + y == x;
    } else {
      var y' := y[..|y| - 1];
      assert (x + y)[..|x + y| - 1] == x + y';
      ConcatAppend(x, y');
    }
  }

  lemma ConcatSingle<T>(x: seq<T>)
    ensures Concat([x]) == x
  {
    var xs := [x];
    assert xs[..0] == [];
  }

  /** Positions of a prefix of the chunks are in the store. */
  lemma ConcatPrefixIn(store: seq<SubTask>, chunks: seq<seq<nat>>, group: seq<nat>, c: nat)
    requires AllIn(store, group) && Concat(chunks) == group && c <= |chunks|
    ensures AllIn(store, Concat(chunks[..c]))
  {
    assert chunks == chunks[..c] + chunks[c..];
    ConcatAppend(chunks[..c], chunks[c..]);
    AppendIn(store, Concat(chunks[..c]), Concat(chunks[c..]));
  }

  // ---------------------------------------------------------------------------
  // executeSequential

  /** `tasks.indexOf(task)`: the first position holding `p`. */
  function FirstIndex(ps: seq<nat>, p: nat): (k: nat)
    requires p in ps
    ensures k < |ps| && ps[k] == p && forall j :: 0 <= j < k ==> ps[j] != p
  {
    if ps[0] == p then 0 else 1 + FirstIndex(ps[1..], p)
  }

  /** Mark every sub-task at a position in `ps` as skipped. */
  function MarkSkipped(store: seq<SubTask>, ps: seq<nat>): (r: seq<SubTask>)
    requires AllIn(store, ps)
    ensures |r| == |store|
    ensures forall p :: 0 <= p < |store| ==> r[p] == (if p in ps then store[p].(status := Skipped) else store[p])
  {
    if |ps| == 0 then store
    else
      var r := MarkSkipped(store, ps[..|ps| - 1]);
      var last := ps[|ps| - 1];
      assert forall p :: p in ps <==> p in ps[..|ps| - 1] || p == last;
      r[last := r[last].(status := Skipped)]
  }

  /** `executeSequential`: run the batch in order and stop at the first sub-task
      that ends failed, marking every sub-task after it in the batch skipped.
      `stopped` is the index in the batch where it stopped. */
  method ExecuteSequential(cfg: TaskRunnerConfig, store: seq<SubTask>, ps: seq<nat>, env: nat -> Outcomes)
    returns (r: seq<SubTask>, stopped: Option<nat>)
    requires AllIn(store, ps)
    ensures |r| == |store|
    ensures forall p :: 0 <= p < |store| && p !in ps ==> r[p] == store[p]
    ensures stopped.Some? ==> stopped.value < |ps|
    ensures Distinct(ps) ==>
      var f := if stopped.Some? then stopped.value else |ps|;
      && (forall i :: 0 <= i < f ==>
            r[ps[i]] == ExecuteTask(cfg, store[ps[i]], env(ps[i])).task && r[ps[i]].status == Completed)
      && (stopped.Some? ==>
            r[ps[f]] == ExecuteTask(cfg, store[ps[f]], env(ps[f])).task && r[ps[f]].status == Failed)
      && (forall i :: f < i < |ps| ==> r[ps[i]] == store[ps[i]].(status := Skipped))
  {
    var i, failed;
    r, i, failed := RunUntilFailure(cfg, store, ps, env);
    if failed {
      stopped := Some(i);
      ExecuteAllEffect(cfg, store, ps[..i + 1], env);
      var k := FirstIndex(ps, ps[i]);
      assert AllIn(r, ps[k + 1..]);
      SequentialTail(cfg, store, ps, i, k, r, env);
      r := MarkSkipped(r, ps[k + 1..]);
    } else {
      stopped := None;
      ExecuteAllEffect(cfg, store, ps, env);
    }
  }

  /** The loop of `executeSequential` up to and including the first sub-task
      that ends failed. */
  method RunUntilFailure(cfg: TaskRunnerConfig, store: seq<SubTask>, ps: seq<nat>, env: nat -> Outcomes)
    returns (r: seq<SubTask>, i: nat, failed: bool)
    requires AllIn(store, ps)
    ensures i <= |ps| && (failed ==> i < |ps|)
    ensures !failed ==> i == |ps| && r == ExecuteAll(cfg, store, ps, env)
    ensures failed ==> r == ExecuteAll(cfg, store, ps[..i + 1], env) && r[ps[i]].status == Failed
    ensures forall j :: 0 <= j < i && (failed ==> ps[j] != ps[i]) ==> r[ps[j]].status == Completed
  {
    r, i, failed := store, 0, false;
    while i < |ps| && !failed
      invariant 0 <= i <= |ps| && (failed ==> i < |ps|)
      invariant !failed ==> r == ExecuteAll(cfg, store, ps[..i], env)
      invariant failed ==> r == ExecuteAll(cfg, store, ps[..i + 1], env) && r[ps[i]].status == Failed
      invariant forall j :: 0 <= j < i && (failed ==> ps[j] != ps[i]) ==> r[ps[j]].status == Completed
      decreases |ps| - i, !failed
    {
      RunStep(cfg, store, ps, i, env);
      r := ExecuteAt(cfg, r, ps[i], env);
      if r[ps[i]].status == Failed {
        failed := true;
      } else {
        i := i + 1;
      }
    }
    if !failed {
      assert ps[..i] == ps;
    }
  }

  /** Running position `i` after the first `i` positions all completed: the
      earlier positions stay completed unless they repeat `ps[i]`, and if
      `ps[i]` does not fail, all of the first `i + 1` positions are completed. */
  lemma RunStep(cfg: TaskRunnerConfig, store: seq<SubTask>, ps: seq<nat>, i: nat, env: nat -> Outcomes)
    requires AllIn(store, ps) && i < |ps|
    requires forall j :: 0 <= j < i ==> ExecuteAll(cfg, store, ps[..i], env)[ps[j]].status == Completed
    ensures AllIn(store, ps[..i]) && AllIn(store, ps[..i + 1])
    ensures var r := ExecuteAll(cfg, store, ps[..i + 1], env);
      && r == ExecuteAt(cfg, ExecuteAll(cfg, store, ps[..i], env), ps[i], env)
      && (forall j :: 0 <= j < i && ps[j] != ps[i] ==> r[ps[j]].status == Completed)
      && (r[ps[i]].status != Failed ==> forall j :: 0 <= j < i + 1 ==> r[ps[j]].status == Completed)
  {
    ExecuteAllStep(cfg, store, ps, i, env);
    var before := ExecuteAll(cfg, store, ps[..i], env);
    UpdateStatus(before, ps, i, ExecuteTask(cfg, before[ps[i]], env(ps[i])).task);
  }

  /** Overwriting the entry at `ps[i]` keeps the earlier positions' statuses,
      except where a position repeats `ps[i]`. */
  lemma UpdateStatus(before: seq<SubTask>, ps: seq<nat>, i: nat, t: SubTask)
    requires i < |ps| && ps[i] < |before|
    requires forall j :: 0 <= j < i ==> ps[j] < |before| && before[ps[j]].status == Completed
    ensures var r := before[ps[i] := t];
      && (forall j :: 0 <= j < i && ps[j] != ps[i] ==> r[ps[j]].status == Completed)
      && (t.status == Completed ==> forall j :: 0 <= j < i + 1 ==> r[ps[j]].status == Completed)
  {
  }

  lemma SequentialTail(cfg: TaskRunnerConfig, store: seq<SubTask>, ps: seq<nat>, i: nat, k: nat, r: seq<SubTask>, env: nat -> Outcomes)
    requires i < |ps| && k < |ps| && ps[k] == ps[i] && forall j :: 0 <= j < k ==> ps[j] != ps[i]
    requires AllIn(store, ps) && |r| == |store|
    requires forall p :: 0 <= p < |store| && p !in ps[..i + 1] ==> r[p] == store[p]
    requires Distinct(ps[..i + 1]) ==>
               forall p :: 0 <= p < |store| && p in ps[..i + 1] ==> r[p] == ExecuteTask(cfg, store[p], env(p)).task
    requires r[ps[i]].status == Failed
    requires forall j :: 0 <= j < i && ps[j] != ps[i] ==> r[ps[j]].status == Completed
    ensures var m := MarkSkipped(r, ps[k + 1..]);
      && (forall p :: 0 <= p < |store| && p !in ps ==> m[p] == store[p])
      && (Distinct(ps) ==>
            && (forall j :: 0 <= j < i ==>
                  m[ps[j]] == ExecuteTask(cfg, store[ps[j]], env(ps[j])).task && m[ps[j]].status == Completed)
            && m[ps[i]] == ExecuteTask(cfg, store[ps[i]], env(ps[i])).task && m[ps[i]].status == Failed
            && (forall j :: i < j < |ps| ==> m[ps[j]] == store[ps[j]].(status := Skipped)))
  {
    var later := ps[k + 1..];
    var m := MarkSkipped(r, later);
    forall p | 0 <= p < |store| && p !in ps ensures m[p] == store[p] {
      assert p !in ps[..i + 1];
      assert p !in later;
    }
    if Distinct(ps) {
      assert k == i;
      assert Distinct(ps[..i + 1]);
      forall j | 0 <= j <= i ensures ps[j] !in later && ps[j] in ps[..i + 1] {
        assert ps[..i + 1][j] == ps[j];
      }
      forall j | i < j < |ps| ensures ps[j] in later && ps[j] !in ps[..i + 1] {
        assert later[j - k - 1] == ps[j];
      }
    }
  }
}
