/**
  The task decomposer (src/core/decomposer.ts): turning a free-text task
  description into sub-tasks `task-1 .. task-N`, one per non-blank line, and
  layering sub-tasks into groups whose dependencies are met by earlier groups.

  A group is a sequence of positions into the sub-task list; the source's
  groups hold references to the same sub-task objects.
*/
module Decomposer {
  import opened Wrappers
  import opened Strings
  import opened Types

  // ---------------------------------------------------------------------------
  // Step extraction

  /** The bullet class of the list-marker regex, character for character as the
      source file holds it: '-', '*' and the three characters U+00E2, U+20AC and
      U+00A2 (a bullet glyph stored in the wrong encoding). The glyph U+2022
      itself is not in the class. */
  const BulletChars: set<char> := {'-', '*', '\U{E2}', '\U{20AC}', '\U{A2}'}

  /** The id `task-${n}`. */
  function TaskId(n: nat): string {
    "task-" + NatToString(n)
  }

  lemma TaskIdInjective(a: nat, b: nat)
    ensures TaskId(a) == TaskId(b) ==> a == b
  {
    if TaskId(a) == TaskId(b) {
      assert NatToString(a) == TaskId(a)[5..];
      assert NatToString(b) == TaskId(b)[5..];
      NatToStringInjective(a, b);
    }
  }

  /** `.` matches every character of `t` from position `k` on. */
  predicate DotMatchesFrom(t: string, k: nat) {
    forall j :: k <= j < |t| ==> !IsLineTerminator(t[j])
  }

  /** A way for `\s+(.+)$` to match `t` from position `p`: whitespace on `p..k`,
      then a non-empty rest without line terminators. */
  predicate ValidSplit(t: string, p: nat, k: nat) {
    && p < k < |t|
    && (forall j :: p <= j < k ==> IsWhitespace(t[j]))
    && DotMatchesFrom(t, k)
  }

  /** The group captured by `\s+(.+)$` matched from position `p` of `t`, if it
      matches: the greedy `\s+` takes the whole whitespace run, giving back its
      last character only when nothing follows the run. */
  function CaptureRest(t: string, p: nat): Option<string>
    requires p <= |t|
  {
    var k := SkipLeading(t, p);
    if k == p then None
    else if k < |t| then (if DotMatchesFrom(t, k) then Some(t[k..]) else None)
    else if k - p >= 2 && !IsLineTerminator(t[k - 1]) then Some([t[k - 1]])
    else None
  }

  /** `CaptureRest` agrees with the regex semantics: it matches exactly when some
      split works, and then captures after the longest whitespace run that works
      (the greedy `\s+` backtracking one character at a time). */
  lemma CaptureRestIsGreedyMatch(t: string, p: nat)
    requires p <= |t|
    ensures CaptureRest(t, p).Some? <==> exists k: nat :: ValidSplit(t, p, k)
    ensures CaptureRest(t, p).Some? ==>
              exists k: nat :: ValidSplit(t, p, k) && CaptureRest(t, p).value == t[k..]
                          && forall k': nat :: ValidSplit(t, p, k') ==> k' <= k
  {
    var K := SkipLeading(t, p);
    if p < K < |t| {
      if DotMatchesFrom(t, K) {
        assert ValidSplit(t, p, K);
      } else {
        var i :| K <= i < |t| && IsLineTerminator(t[i]);
      }
    } else if K - p >= 2 && !IsLineTerminator(t[K - 1]) {
      assert ValidSplit(t, p, K - 1);
    }
  }

  /** `/^[-*...]\s+(.+)$/` on a trimmed line: the text after a bullet. */
  function BulletMatch(t: string): Option<string> {
    if |t| >= 1 && t[0] in BulletChars then CaptureRest(t, 1) else None
  }

  /** `/^\d+\.\s+(.+)$/` on a trimmed line: the text after a numeral. The greedy
      `\d+` can only be followed by the dot right after the whole digit run. */
  function NumberedMatch(t: string): Option<string> {
    var d := DigitRun(t);
    if d >= 1 && d < |t| && t[d] == '.' then CaptureRest(t, d + 1) else None
  }

  /** The description of a list item: the bullet match if any, else the numbered match. */
  function ListItemText(t: string): Option<string> {
    var b := BulletMatch(t);
    if b.Some? then b else NumberedMatch(t)
  }

  /** The sequencing cue test on the lower-cased description. */
  predicate HasSequencingCue(description: string) {
    var lower := ToLowerAscii(description);
    Contains(lower, "after") || Contains(lower, "once") || Contains(lower, "then") || Contains(lower, "following")
  }

  datatype Step = Step(description: string, dependencies: seq<string>)

  /** The step one line contributes when `before` steps precede it; `None` when
      the line trims to nothing and is not a list item. */
  function StepFor(line: string, before: nat): Option<Step> {
    var trimmed := Trim(line);
    var item := ListItemText(trimmed);
    if item.Some? then
      Some(Step(item.value, if HasSequencingCue(item.value) && before > 0 then [TaskId(before)] else []))
    else if |trimmed| > 0 then
      Some(Step(trimmed, if before > 0 then [TaskId(before)] else []))
    else None
  }

  /** The `forEach` over the lines, each step numbered by how many came before it. */
  function ExtractLoop(lines: seq<string>): (steps: seq<Step>)
    ensures |steps| <= |lines|
  {
    if |lines| == 0 then []
    else
      var prev := ExtractLoop(lines[..|lines| - 1]);
      match StepFor(lines[|lines| - 1], |prev|)
      case Some(st) => prev + [st]
      case None => prev
  }

  /** A non-blank line always yields a step. */
  lemma StepForNonBlank(line: string, before: nat)
    requires Trim(line) != ""
    ensures StepFor(line, before).Some?
  {
  }

  /** On non-blank lines the loop yields one step per line, the k-th with k steps before it. */
  lemma {:induction false} ExtractLoopNonBlank(lines: seq<string>)
    requires forall i :: 0 <= i < |lines| ==> Trim(lines[i]) != ""
    ensures |ExtractLoop(lines)| == |lines|
    ensures forall k :: 0 <= k < |lines| ==> StepFor(lines[k], k) == Some(ExtractLoop(lines)[k])
  {
    if |lines| > 0 {
      var init := lines[..|lines| - 1];
      var last := lines[|lines| - 1];
      ExtractLoopNonBlank(init);
      var prev := ExtractLoop(init);
      StepForNonBlank(last, |init|);
      var st := StepFor(last, |prev|).value;
      assert ExtractLoop(lines) == prev + [st];
      forall k | 0 <= k < |lines| ensures StepFor(lines[k], k) == Some(ExtractLoop(lines)[k]) {
        if k < |init| {
          assert lines[k] == init[k] && ExtractLoop(lines)[k] == prev[k];
        } else {
          assert k == |prev| && lines[k] == last && ExtractLoop(lines)[k] == st;
        }
      }
    }
  }

  /** The loop yields no step exactly when every line trims to nothing: a blank
      line is neither a list item nor a plain step. */
  lemma {:induction false} ExtractLoopEmpty(lines: seq<string>)
    ensures ExtractLoop(lines) == [] <==> forall i :: 0 <= i < |lines| ==> Trim(lines[i]) == ""
  {
    if |lines| > 0 {
      var init := lines[..|lines| - 1];
      var last := lines[|lines| - 1];
      ExtractLoopEmpty(init);
      if Trim(last) != "" {
        StepForNonBlank(last, |ExtractLoop(init)|);
      } else {
        assert StepFor(last, |ExtractLoop(init)|) == None;
        forall i | 0 <= i < |init| ensures lines[i] == init[i] { }
      }
    }
  }

  /** The source's `extractSteps`: one step per line, or a single fallback step
      holding the lines joined by spaces when no line produced a step. */
  function ExtractSteps(lines: seq<string>): (steps: seq<Step>)
    ensures |steps| >= 1
    ensures (forall i :: 0 <= i < |lines| ==> Trim(lines[i]) == "") ==> steps == [Step(Join(lines, " "), [])]
  {
    ExtractLoopEmpty(lines);
    var steps := ExtractLoop(lines);
    if |steps| == 0 then [Step(Join(lines, " "), [])] else steps
  }

  /** `split('\n').filter(line => line.trim())`: the non-blank lines, every one
      of them, in their original order (see `NonBlankInOrder`). */
  function NonBlank(lines: seq<string>): (r: seq<string>)
    ensures forall i :: 0 <= i < |r| ==> Trim(r[i]) != ""
    ensures forall l :: l in r ==> l in lines
    ensures forall i :: 0 <= i < |lines| && Trim(lines[i]) != "" ==> lines[i] in r
  {
    if |lines| == 0 then []
    else
      var init := lines[..|lines| - 1];
      assert forall i :: 0 <= i < |init| ==> lines[i] == init[i];
      NonBlank(init) + (if Trim(lines[|lines| - 1]) != "" then [lines[|lines| - 1]] else [])
  }

  /** The positions of the non-blank lines, in increasing order. */
  function KeptPositions(lines: seq<string>): (idx: seq<nat>)
    ensures forall j :: 0 <= j < |idx| ==> idx[j] < |lines|
    ensures forall j, j' :: 0 <= j < j' < |idx| ==> idx[j] < idx[j']
    ensures forall i :: 0 <= i < |lines| ==> (i in idx <==> Trim(lines[i]) != "")
  {
    if |lines| == 0 then []
    else
      var init := lines[..|lines| - 1];
      assert forall i :: 0 <= i < |init| ==> lines[i] == init[i];
      KeptPositions(init) + (if Trim(lines[|lines| - 1]) != "" then [|lines| - 1] else [])
  }

  /** The filter keeps exactly the lines at the non-blank positions, once each
      and in input order. */
  lemma {:induction false} NonBlankInOrder(lines: seq<string>)
    ensures var idx := KeptPositions(lines);
      |NonBlank(lines)| == |idx| && forall j :: 0 <= j < |idx| ==> NonBlank(lines)[j] == lines[idx[j]]
  {
    if |lines| > 0 {
      var init := lines[..|lines| - 1];
      NonBlankInOrder(init);
      var idx0 := KeptPositions(init);
      var idx := KeptPositions(lines);
      forall j | 0 <= j < |idx| ensures NonBlank(lines)[j] == lines[idx[j]] {
        if j < |idx0| {
          assert idx[j] == idx0[j] && NonBlank(lines)[j] == NonBlank(init)[j];
        }
      }
    }
  }

  function NonBlankLines(text: string): seq<string> {
    NonBlank(Split(text, '\n'))
  }

  function NewSubTask(id: string, step: Step): SubTask {
    SubTask(id, step.description, step.dependencies, Pending, None, None, None, None)
  }

  /** One pending sub-task `task-k` per step, in order. */
  function SubTasksOf(steps: seq<Step>): (r: seq<SubTask>)
    ensures |r| == |steps|
    ensures forall k :: 0 <= k < |r| ==>
              && r[k].id == TaskId(k + 1) && r[k].status == Pending && r[k].result == None
              && r[k].startTime == None && r[k].endTime == None && r[k].error == None
              && r[k].description == steps[k].description && r[k].dependencies == steps[k].dependencies
  {
    seq(|steps|, k requires 0 <= k < |steps| => NewSubTask(TaskId(k + 1), steps[k]))
  }

  /** The source's `decompose`: one pending sub-task `task-k` per extracted step. */
  function Decompose(text: string): (r: seq<SubTask>)
    ensures |r| >= 1
    ensures forall k :: 0 <= k < |r| ==>
              && r[k].id == TaskId(k + 1) && r[k].status == Pending && r[k].result == None
              && r[k].startTime == None && r[k].endTime == None && r[k].error == None
  {
    SubTasksOf(ExtractSteps(NonBlankLines(text)))
  }

  /** The rule for the `k`-th non-blank line: a list item keeps the text after its
      marker and depends on the previous step only when that text carries a
      sequencing cue; any other line keeps its trimmed text and always depends on
      the previous step. */
  predicate FollowsLineRule(line: string, k: nat, st: Step) {
    var item := ListItemText(Trim(line));
    if item.Some? then
      && st.description == item.value
      && st.dependencies == (if k > 0 && HasSequencingCue(item.value) then [TaskId(k)] else [])
    else
      && st.description == Trim(line)
      && st.dependencies == (if k > 0 then [TaskId(k)] else [])
  }

  lemma StepForFollowsLineRule(line: string, k: nat)
    requires Trim(line) != ""
    ensures StepFor(line, k).Some? && FollowsLineRule(line, k, StepFor(line, k).value)
  {
  }

  /** Over non-blank lines the sub-tasks follow the line rules one for one. */
  lemma SubTasksFollowLineRules(lines: seq<string>)
    requires |lines| > 0 && forall i :: 0 <= i < |lines| ==> Trim(lines[i]) != ""
    ensures var r := SubTasksOf(ExtractSteps(lines));
      |r| == |lines| && forall k :: 0 <= k < |lines| ==>
        FollowsLineRule(lines[k], k, Step(r[k].description, r[k].dependencies))
  {
    var steps := ExtractLoop(lines);
    ExtractLoopNonBlank(lines);
    assert ExtractSteps(lines) == steps;
    var r := SubTasksOf(steps);
    forall k | 0 <= k < |lines|
      ensures FollowsLineRule(lines[k], k, Step(r[k].description, r[k].dependencies))
    {
      StepForFollowsLineRule(lines[k], k);
      assert Step(r[k].description, r[k].dependencies) == steps[k];
    }
  }

  /** The line rules of `decompose`: N non-blank lines give N sub-tasks in line
      order, each following the rule for its line; no non-blank line gives one
      empty sub-task without dependencies. */
  lemma DecomposeLineRules(text: string)
    ensures var lines := NonBlankLines(text);
      var r := Decompose(text);
      && (|lines| > 0 ==> |r| == |lines| && forall k :: 0 <= k < |lines| ==>
            FollowsLineRule(lines[k], k, Step(r[k].description, r[k].dependencies)))
      && (|lines| == 0 ==> r == [NewSubTask(TaskId(1), Step("", []))])
  {
    var lines := NonBlankLines(text);
    if |lines| > 0 {
      SubTasksFollowLineRules(lines);
    } else {
      assert ExtractSteps(lines) == [Step("", [])];
    }
  }

  /** Every sub-task of `decompose` either has no dependency or depends on
      exactly `task-k`, the id of the sub-task right before it. */
  lemma DecomposeDependencies(text: string, k: nat)
    requires k < |Decompose(text)|
    ensures var deps := Decompose(text)[k].dependencies;
      deps == [] || (k > 0 && deps == [TaskId(k)])
  {
    var lines := NonBlankLines(text);
    if |lines| > 0 {
      SubTasksFollowLineRules(lines);
      var r := Decompose(text);
      assert FollowsLineRule(lines[k], k, Step(r[k].description, r[k].dependencies));
    } else {
      assert ExtractSteps(lines) == [Step("", [])];
    }
  }

  // ---------------------------------------------------------------------------
  // Shape of the dependency graph `decompose` builds

  predicate DistinctIds(tasks: seq<SubTask>) {
    forall a, b :: 0 <= a < b < |tasks| ==> tasks[a].id != tasks[b].id
  }

  /** Every dependency names the sub-task right before: at most one edge, always backwards. */
  predicate DependsOnlyOnPrevious(tasks: seq<SubTask>) {
    forall k, d :: 0 <= k < |tasks| && d in tasks[k].dependencies ==> k > 0 && d == tasks[k - 1].id
  }

  /** The ids `task-1 .. task-N` that `decompose` hands out are distinct. */
  lemma DecomposeIdsDistinct(text: string)
    ensures DistinctIds(Decompose(text))
  {
    NumberedIdsDistinct(Decompose(text));
  }

  lemma NumberedIdsDistinct(tasks: seq<SubTask>)
    requires forall k :: 0 <= k < |tasks| ==> tasks[k].id == TaskId(k + 1)
    ensures DistinctIds(tasks)
  {
    forall a, b | 0 <= a < b < |tasks| ensures tasks[a].id != tasks[b].id {
      TaskIdInjective(a + 1, b + 1);
    }
  }

  /** Every sub-task of `decompose` has at most one dependency, the one right
      before it; ids are distinct, so every reference resolves and the graph is acyclic. */
  lemma DecomposeIsBackwardChain(text: string)
    ensures var r := Decompose(text);
      DistinctIds(r) && DependsOnlyOnPrevious(r)
      && forall k :: 0 <= k < |r| ==> |r[k].dependencies| <= 1
  {
    DecomposeIdsDistinct(text);
    var r := Decompose(text);
    forall k | 0 <= k < |r| ensures EmptyOrPrevious(r, k) {
      DecomposeDependencies(text, k);
    }
    EmptyOrPreviousIsChain(r);
  }

  /** Sub-task `k` has no dependency or exactly the one on the sub-task right before it. */
  predicate EmptyOrPrevious(r: seq<SubTask>, k: nat)
    requires k < |r|
  {
    r[k].dependencies == [] || (k > 0 && r[k].dependencies == [r[k - 1].id])
  }

  lemma EmptyOrPreviousIsChain(r: seq<SubTask>)
    requires forall k :: 0 <= k < |r| ==> EmptyOrPrevious(r, k)
    ensures DependsOnlyOnPrevious(r) && forall k :: 0 <= k < |r| ==> |r[k].dependencies| <= 1
  {
    forall k, d | 0 <= k < |r| && d in r[k].dependencies ensures k > 0 && d == r[k - 1].id {
      assert EmptyOrPrevious(r, k);
    }
    forall k | 0 <= k < |r| ensures |r[k].dependencies| <= 1 {
      assert EmptyOrPrevious(r, k);
    }
  }

  // ---------------------------------------------------------------------------
  // Dependency layering (getParallelizableGroups)

  /** The set of ids of all sub-tasks. */
  function IdSet(tasks: seq<SubTask>): (r: set<string>)
    ensures forall j :: 0 <= j < |tasks| ==> tasks[j].id in r
    ensures forall x :: x in r ==> exists j :: 0 <= j < |tasks| && tasks[j].id == x
  {
    if |tasks| == 0 then {}
    else
      var init := tasks[..|tasks| - 1];
      var r := IdSet(init) + {tasks[|tasks| - 1].id};
      assert forall j :: 0 <= j < |init| ==> init[j] == tasks[j];
      assert forall x :: x in r ==> exists j :: 0 <= j < |tasks| && tasks[j].id == x by {
        forall x | x in r ensures exists j :: 0 <= j < |tasks| && tasks[j].id == x {
          if x in IdSet(init) {
            var j :| 0 <= j < |init| && init[j].id == x;
            assert tasks[j].id == x;
          } else {
            assert tasks[|tasks| - 1].id == x;
          }
        }
      }
      r
  }

  /** A sub-task the scan picks: not yet processed, and all its dependencies processed. */
  predicate IsReady(tasks: seq<SubTask>, processed: set<string>, j: nat)
    requires j < |tasks|
  {
    tasks[j].id !in processed && forall d :: d in tasks[j].dependencies ==> d in processed
  }

  predicate Increasing(s: seq<nat>) {
    forall a, b :: 0 <= a < b < |s| ==> s[a] < s[b]
  }

  /** The scan of positions `j ..` in order. */
  function ReadyFrom(tasks: seq<SubTask>, processed: set<string>, j: nat): (r: seq<nat>)
    requires j <= |tasks|
    decreases |tasks| - j
    ensures forall i :: 0 <= i < |r| ==> j <= r[i] < |tasks| && IsReady(tasks, processed, r[i])
    ensures forall x :: j <= x < |tasks| && IsReady(tasks, processed, x) ==> x in r
    ensures Increasing(r)
  {
    if j == |tasks| then []
    else if IsReady(tasks, processed, j) then [j] + ReadyFrom(tasks, processed, j + 1)
    else ReadyFrom(tasks, processed, j + 1)
  }

  /** One pass of the `for` loop: every ready sub-task, in list order. */
  function ReadyTasks(tasks: seq<SubTask>, processed: set<string>): seq<nat>
  {
    ReadyFrom(tasks, processed, 0)
  }

  predicate InRange(tasks: seq<SubTask>, g: seq<nat>) {
    forall i :: 0 <= i < |g| ==> g[i] < |tasks|
  }

  function GroupIds(tasks: seq<SubTask>, g: seq<nat>): set<string>
    requires InRange(tasks, g)
  {
    set i | 0 <= i < |g| :: tasks[g[i]].id
  }

  /** The `while` loop from a given `processed` set: emit the ready group and
      continue, until the processed count reaches the number of sub-tasks or a
      scan finds nothing. Each round adds at least one new id, so the processed
      count grows and the loop ends even when ids repeat. */
  function Layers(tasks: seq<SubTask>, processed: set<string>): (groups: seq<seq<nat>>)
    decreases |tasks| - |processed|
    ensures forall i :: 0 <= i < |groups| ==> |groups[i]| > 0 && InRange(tasks, groups[i])
  {
    if |processed| >= |tasks| then []
    else
      var g := ReadyTasks(tasks, processed);
      if |g| == 0 then []
      else
        var next := processed + GroupIds(tasks, g);
        LayerGrows(tasks, processed, g);
        [g] + Layers(tasks, next)
  }

  /** One round of the loop when the processed count is below the number of sub-tasks and the scan finds something. */
  lemma LayersStep(tasks: seq<SubTask>, processed: set<string>)
    requires |processed| < |tasks| && ReadyTasks(tasks, processed) != []
    ensures var g := ReadyTasks(tasks, processed);
      Layers(tasks, processed) == [g] + Layers(tasks, processed + GroupIds(tasks, g))
  {
  }

  /** A non-empty group adds a new id to the processed set. */
  lemma LayerGrows(tasks: seq<SubTask>, processed: set<string>, g: seq<nat>)
    requires g == ReadyTasks(tasks, processed) && |g| > 0
    ensures |processed| < |processed + GroupIds(tasks, g)|
  {
    var next := processed + GroupIds(tasks, g);
    assert tasks[g[0]].id in next - processed;
    ProperSupersetLarger(processed, next);
  }

  /** The source's `getParallelizableGroups`. */
  function GetParallelizableGroups(tasks: seq<SubTask>): seq<seq<nat>> {
    Layers(tasks, {})
  }

  predicate AllInRange(tasks: seq<SubTask>, groups: seq<seq<nat>>) {
    forall i :: 0 <= i < |groups| ==> InRange(tasks, groups[i])
  }

  /** The ids processed before group `i`, starting from `processed`. */
  function Done(tasks: seq<SubTask>, processed: set<string>, groups: seq<seq<nat>>, i: nat): set<string>
    requires i <= |groups| && AllInRange(tasks, groups)
  {
    if i == 0 then processed else Done(tasks, processed, groups, i - 1) + GroupIds(tasks, groups[i - 1])
  }

  lemma {:induction false} DoneShift(tasks: seq<SubTask>, processed: set<string>, g: seq<nat>, rest: seq<seq<nat>>, i: nat)
    requires InRange(tasks, g) && AllInRange(tasks, rest) && i <= |rest|
    ensures AllInRange(tasks, [g] + rest)
    ensures Done(tasks, processed, [g] + rest, i + 1) == Done(tasks, processed + GroupIds(tasks, g), rest, i)
  {
    var gs := [g] + rest;
    assert forall k :: 0 <= k < |rest| ==> gs[k + 1] == rest[k];
    if i > 0 {
      DoneShift(tasks, processed, g, rest, i - 1);
    }
  }

  /** Group `i` of `gs` is exactly the scan after the earlier groups. */
  predicate ScansFrom(tasks: seq<SubTask>, processed: set<string>, gs: seq<seq<nat>>)
    requires AllInRange(tasks, gs)
  {
    forall i :: 0 <= i < |gs| ==> gs[i] == ReadyTasks(tasks, Done(tasks, processed, gs, i))
  }

  /** The loop's exit condition: the processed count reached the number of
      sub-tasks, or a scan found nothing. */
  predicate Stopped(tasks: seq<SubTask>, last: set<string>) {
    |last| >= |tasks| || ReadyTasks(tasks, last) == []
  }

  lemma ScansFromCons(tasks: seq<SubTask>, processed: set<string>, g: seq<nat>, rest: seq<seq<nat>>)
    requires InRange(tasks, g) && AllInRange(tasks, rest)
    requires g == ReadyTasks(tasks, processed)
    requires ScansFrom(tasks, processed + GroupIds(tasks, g), rest)
    ensures AllInRange(tasks, [g] + rest) && ScansFrom(tasks, processed, [g] + rest)
  {
    var gs := [g] + rest;
    DoneShift(tasks, processed, g, rest, 0);
    forall i | 0 <= i < |gs| ensures gs[i] == ReadyTasks(tasks, Done(tasks, processed, gs, i)) {
      if i > 0 {
        DoneShift(tasks, processed, g, rest, i - 1);
        assert gs[i] == rest[i - 1];
      }
    }
  }

  /** The loop as a layering: group `i` is exactly the scan after the earlier
      groups, and the loop stops only when the processed count reaches the number
      of sub-tasks or a scan comes back empty. */
  lemma {:induction false} LayersAreScans(tasks: seq<SubTask>, processed: set<string>)
    decreases |tasks| - |processed|
    ensures var gs := Layers(tasks, processed);
      ScansFrom(tasks, processed, gs) && Stopped(tasks, Done(tasks, processed, gs, |gs|))
  {
    if |processed| < |tasks| {
      var g := ReadyTasks(tasks, processed);
      if |g| > 0 {
        var next := processed + GroupIds(tasks, g);
        LayerGrows(tasks, processed, g);
        var rest := Layers(tasks, next);
        LayersAreScans(tasks, next);
        assert Layers(tasks, processed) == [g] + rest;
        ScansFromCons(tasks, processed, g, rest);
        DoneShift(tasks, processed, g, rest, |rest|);
      }
    }
  }

  /** Done only grows. */
  lemma {:induction false} DoneMonotone(tasks: seq<SubTask>, processed: set<string>, gs: seq<seq<nat>>, i: nat, k: nat)
    requires i <= k <= |gs| && AllInRange(tasks, gs)
    ensures Done(tasks, processed, gs, i) <= Done(tasks, processed, gs, k)
    decreases k - i
  {
    if i < k {
      DoneMonotone(tasks, processed, gs, i, k - 1);
    }
  }

  /** Groups of `getParallelizableGroups` are non-empty and keep list order. */
  lemma GroupsNonEmptyOrdered(tasks: seq<SubTask>)
    ensures var gs := GetParallelizableGroups(tasks);
      forall i :: 0 <= i < |gs| ==> |gs[i]| > 0 && Increasing(gs[i])
  {
    var gs := GetParallelizableGroups(tasks);
    LayersAreScans(tasks, {});
    forall i | 0 <= i < |gs| ensures Increasing(gs[i]) {
      assert gs[i] == ReadyTasks(tasks, Done(tasks, {}, gs, i));
    }
  }

  /** No sub-task is in two groups. */
  lemma GroupsDisjoint(tasks: seq<SubTask>)
    ensures var gs := GetParallelizableGroups(tasks);
      forall i, k, x :: 0 <= i < k < |gs| && x in gs[i] ==> x !in gs[k]
  {
    var gs := GetParallelizableGroups(tasks);
    LayersAreScans(tasks, {});
    forall i, k, x | 0 <= i < k < |gs| && x in gs[i] ensures x !in gs[k] {
      assert gs[k] == ReadyTasks(tasks, Done(tasks, {}, gs, k));
      LaterScanSkips(tasks, gs, i, k, x);
    }
  }

  /** A sub-task taken by scan `i` is processed before any later scan `k`, so `k` skips it. */
  lemma LaterScanSkips(tasks: seq<SubTask>, gs: seq<seq<nat>>, i: nat, k: nat, x: nat)
    requires AllInRange(tasks, gs) && i < k < |gs| && x in gs[i]
    requires gs[k] == ReadyTasks(tasks, Done(tasks, {}, gs, k))
    ensures x !in gs[k]
  {
    DoneMonotone(tasks, {}, gs, i + 1, k);
    var p :| 0 <= p < |gs[i]| && gs[i][p] == x;
    assert tasks[x].id in GroupIds(tasks, gs[i]);
    assert tasks[x].id in Done(tasks, {}, gs, i + 1);
    var done := Done(tasks, {}, gs, k);
    forall q | 0 <= q < |gs[k]| ensures gs[k][q] != x {
      assert IsReady(tasks, done, gs[k][q]);
    }
  }



  /** Every dependency of a grouped sub-task is the id of a member of a strictly earlier group. */
  lemma GroupsRespectDependencies(tasks: seq<SubTask>)
    ensures var gs := GetParallelizableGroups(tasks);
      forall i, x, d :: 0 <= i < |gs| && x in gs[i] && d in tasks[x].dependencies ==>
        exists i', y :: 0 <= i' < i && y in gs[i'] && tasks[y].id == d
  {
    var gs := GetParallelizableGroups(tasks);
    LayersAreScans(tasks, {});
    forall i, x, d | 0 <= i < |gs| && x in gs[i] && d in tasks[x].dependencies
      ensures exists i', y :: 0 <= i' < i && y in gs[i'] && tasks[y].id == d
    {
      assert gs[i] == ReadyTasks(tasks, Done(tasks, {}, gs, i));
      DoneMembers(tasks, gs, i, d);
    }
  }

  /** Each group takes every sub-task that is ready once the earlier groups are processed. */
  lemma GroupsAreMaximal(tasks: seq<SubTask>)
    ensures var gs := GetParallelizableGroups(tasks);
      forall i, x :: 0 <= i < |gs| && 0 <= x < |tasks| && IsReady(tasks, Done(tasks, {}, gs, i), x) ==> x in gs[i]
  {
    var gs := GetParallelizableGroups(tasks);
    LayersAreScans(tasks, {});
    forall i, x | 0 <= i < |gs| && 0 <= x < |tasks| && IsReady(tasks, Done(tasks, {}, gs, i), x)
      ensures x in gs[i]
    {
      assert gs[i] == ReadyTasks(tasks, Done(tasks, {}, gs, i));
    }
  }

  /** An id in `Done` from the empty set comes from a member of an earlier group. */
  lemma {:induction false} DoneMembers(tasks: seq<SubTask>, gs: seq<seq<nat>>, i: nat, d: string)
    requires i <= |gs| && AllInRange(tasks, gs)
    requires d in Done(tasks, {}, gs, i)
    ensures exists i', y :: 0 <= i' < i && y in gs[i'] && tasks[y].id == d
  {
    if d !in GroupIds(tasks, gs[i - 1]) {
      DoneMembers(tasks, gs, i - 1, d);
    }
  }

  /** The positions `a .. b-1` in order. */
  function Range(a: nat, b: nat): (r: seq<nat>)
    decreases b - a
    ensures |r| == if a <= b then b - a else 0
    ensures forall i :: 0 <= i < |r| ==> r[i] == a + i
  {
    if a >= b then [] else [a] + Range(a + 1, b)
  }

  /** When everything from `j` on is ready, the scan from `j` takes all of it. */
  lemma {:induction false} ScanTakesAll(tasks: seq<SubTask>, processed: set<string>, j: nat)
    requires j <= |tasks|
    requires forall x :: j <= x < |tasks| ==> IsReady(tasks, processed, x)
    ensures ReadyFrom(tasks, processed, j) == Range(j, |tasks|)
    decreases |tasks| - j
  {
    if j < |tasks| {
      assert IsReady(tasks, processed, j);
      ScanTakesAll(tasks, processed, j + 1);
    }
  }

  /** When nothing from `j` on is ready, the scan from `j` is empty. */
  lemma {:induction false} ScanTakesNone(tasks: seq<SubTask>, processed: set<string>, j: nat)
    requires j <= |tasks|
    requires forall x :: j <= x < |tasks| ==> !IsReady(tasks, processed, x)
    ensures ReadyFrom(tasks, processed, j) == []
    decreases |tasks| - j
  {
    if j < |tasks| {
      ScanTakesNone(tasks, processed, j + 1);
    }
  }

  /** When exactly one position from `j` on is ready, the scan from `j` is that position. */
  lemma {:induction false} ScanTakesOne(tasks: seq<SubTask>, processed: set<string>, j: nat, k: nat)
    requires j <= k < |tasks|
    requires forall x :: j <= x < |tasks| ==> (IsReady(tasks, processed, x) <==> x == k)
    ensures ReadyFrom(tasks, processed, j) == [k]
    decreases |tasks| - j
  {
    if j < k {
      ScanTakesOne(tasks, processed, j + 1, k);
    } else {
      assert IsReady(tasks, processed, k);
      ScanTakesNone(tasks, processed, j + 1);
    }
  }

  /** With no dependencies at all, the first scan takes every position. */
  lemma AllReadyAtStart(tasks: seq<SubTask>)
    requires forall k :: 0 <= k < |tasks| ==> tasks[k].dependencies == []
    ensures ReadyTasks(tasks, {}) == Range(0, |tasks|)
  {
    forall x | 0 <= x < |tasks| ensures IsReady(tasks, {}, x) {
    }
    ScanTakesAll(tasks, {}, 0);
  }

  /** Once every position's id is processed, layering emits nothing more. */
  lemma NothingAfterAll(tasks: seq<SubTask>)
    requires InRange(tasks, Range(0, |tasks|))
    ensures Layers(tasks, GroupIds(tasks, Range(0, |tasks|))) == []
  {
    var g := Range(0, |tasks|);
    var next := GroupIds(tasks, g);
    forall x | 0 <= x < |tasks| ensures !IsReady(tasks, next, x) {
      assert g[x] == x;
    }
    ScanTakesNone(tasks, next, 0);
  }

  /** With no dependencies at all, everything forms one group. */
  lemma NoDependenciesOneGroup(tasks: seq<SubTask>)
    requires |tasks| > 0
    requires forall k :: 0 <= k < |tasks| ==> tasks[k].dependencies == []
    ensures GetParallelizableGroups(tasks) == [Range(0, |tasks|)]
  {
    AllReadyAtStart(tasks);
    var g := Range(0, |tasks|);
    NothingAfterAll(tasks);
    LayersStep(tasks, {});
    assert {} + GroupIds(tasks, g) == GroupIds(tasks, g);
  }

  // ---------------------------------------------------------------------------
  // Layering of chains

  /** Ids processed so far are ids of sub-tasks. */
  lemma {:induction false} DoneWithinIds(tasks: seq<SubTask>, gs: seq<seq<nat>>, i: nat)
    requires i <= |gs| && AllInRange(tasks, gs)
    ensures Done(tasks, {}, gs, i) <= IdSet(tasks)
  {
    if i > 0 {
      DoneWithinIds(tasks, gs, i - 1);
    }
  }

  /** With distinct ids there are as many ids as sub-tasks. */
  lemma {:induction false} IdSetSizeDistinct(tasks: seq<SubTask>)
    requires DistinctIds(tasks)
    ensures |IdSet(tasks)| == |tasks|
  {
    if |tasks| > 0 {
      var init := tasks[..|tasks| - 1];
      assert DistinctIds(init) by {
        assert forall j :: 0 <= j < |init| ==> init[j] == tasks[j];
      }
      IdSetSizeDistinct(init);
      assert tasks[|tasks| - 1].id !in IdSet(init);
    }
  }

  /** When a scan finds nothing and every dependency points one step back,
      every id is already processed. */
  lemma {:induction false} StuckMeansAllDone(tasks: seq<SubTask>, last: set<string>, x: nat)
    requires DependsOnlyOnPrevious(tasks) && x < |tasks|
    requires ReadyTasks(tasks, last) == []
    ensures tasks[x].id in last
  {
    if x > 0 {
      StuckMeansAllDone(tasks, last, x - 1);
    }
    assert !IsReady(tasks, last, x);
    forall d | d in tasks[x].dependencies ensures d in last {
      assert d == tasks[x - 1].id;
    }
  }

  /** Sub-task `x` is in one of the groups. */
  predicate Placed(gs: seq<seq<nat>>, x: nat) {
    exists i :: 0 <= i < |gs| && x in gs[i]
  }

  /** When the loop has stopped on a backward chain with distinct ids, every id is processed. */
  lemma StoppedChainAllDone(tasks: seq<SubTask>, last: set<string>)
    requires DistinctIds(tasks) && DependsOnlyOnPrevious(tasks)
    requires last <= IdSet(tasks) && Stopped(tasks, last)
    ensures forall x :: 0 <= x < |tasks| ==> tasks[x].id in last
  {
    if ReadyTasks(tasks, last) == [] {
      forall x | 0 <= x < |tasks| ensures tasks[x].id in last {
        StuckMeansAllDone(tasks, last, x);
      }
    } else {
      IdSetSizeDistinct(tasks);
      if last != IdSet(tasks) {
        ProperSupersetLarger(last, IdSet(tasks));
      }
    }
  }

  /** On a backward chain the loop ends with every id processed. */
  lemma ChainEndsAllDone(tasks: seq<SubTask>)
    requires DistinctIds(tasks) && DependsOnlyOnPrevious(tasks)
    ensures var gs := GetParallelizableGroups(tasks);
      forall x :: 0 <= x < |tasks| ==> tasks[x].id in Done(tasks, {}, gs, |gs|)
  {
    var gs := GetParallelizableGroups(tasks);
    LayersAreScans(tasks, {});
    DoneWithinIds(tasks, gs, |gs|);
    StoppedChainAllDone(tasks, Done(tasks, {}, gs, |gs|));
  }

  /** On a backward chain with distinct ids (the shape `decompose` builds), the
      layering stops only once every sub-task is placed: each one is in some group. */
  lemma LayersCoverChain(tasks: seq<SubTask>)
    requires DistinctIds(tasks) && DependsOnlyOnPrevious(tasks)
    ensures var gs := GetParallelizableGroups(tasks);
      forall x :: 0 <= x < |tasks| ==> Placed(gs, x)
  {
    var gs := GetParallelizableGroups(tasks);
    ChainEndsAllDone(tasks);
    forall x | 0 <= x < |tasks| ensures Placed(gs, x) {
      DoneMembers(tasks, gs, |gs|, tasks[x].id);
      var i, y :| 0 <= i < |gs| && y in gs[i] && tasks[y].id == tasks[x].id;
      assert y < |tasks| by {
        var p :| 0 <= p < |gs[i]| && gs[i][p] == y;
      }
    }
  }

  /** The groups of `decompose` output cover every sub-task. */
  lemma DecomposeGroupsCover(text: string)
    ensures var r := Decompose(text);
      var gs := GetParallelizableGroups(r);
      forall x :: 0 <= x < |r| ==> Placed(gs, x)
  {
    DecomposeIsBackwardChain(text);
    LayersCoverChain(Decompose(text));
  }

  /** The groups `[a], [a+1], .., [b-1]`. */
  function Singletons(a: nat, b: nat): (gs: seq<seq<nat>>)
    decreases b - a
    ensures |gs| == if a <= b then b - a else 0
    ensures forall i :: 0 <= i < |gs| ==> gs[i] == [a + i]
  {
    if a >= b then [] else [[a]] + Singletons(a + 1, b)
  }

  /** Every sub-task after the first depends on the one before, and the first on nothing. */
  predicate IsFullChain(tasks: seq<SubTask>) {
    && (|tasks| > 0 ==> tasks[0].dependencies == [])
    && forall k :: 0 < k < |tasks| ==> tasks[k].dependencies == [tasks[k - 1].id]
  }

  /** With distinct ids, the ids of the first `m` sub-tasks are exactly those of positions below `m`. */
  lemma PrefixIds(tasks: seq<SubTask>, m: nat)
    requires DistinctIds(tasks) && m <= |tasks|
    ensures forall x :: 0 <= x < |tasks| ==> (tasks[x].id in IdSet(tasks[..m]) <==> x < m)
  {
    var pre := tasks[..m];
    forall x | 0 <= x < |tasks| ensures tasks[x].id in IdSet(pre) <==> x < m {
      if x < m {
        assert pre[x] == tasks[x];
      }
    }
  }

  /** On a full chain, once the first `m` sub-tasks are processed only sub-task `m` is ready. */
  lemma ChainReadyIsNext(tasks: seq<SubTask>, m: nat)
    requires DistinctIds(tasks) && IsFullChain(tasks) && m < |tasks|
    ensures forall x :: 0 <= x < |tasks| ==> (IsReady(tasks, IdSet(tasks[..m]), x) <==> x == m)
  {
    var P := IdSet(tasks[..m]);
    PrefixIds(tasks, m);
    forall x | 0 <= x < |tasks| ensures IsReady(tasks, P, x) <==> x == m {
      if x > m {
        assert tasks[x].dependencies == [tasks[x - 1].id];
        assert tasks[x - 1].id !in P;
      } else if x == m && m > 0 {
        assert tasks[m].dependencies == [tasks[m - 1].id];
      }
    }
  }

  lemma {:induction false} ChainLayersFrom(tasks: seq<SubTask>, m: nat)
    requires DistinctIds(tasks) && IsFullChain(tasks) && m <= |tasks|
    ensures Layers(tasks, IdSet(tasks[..m])) == Singletons(m, |tasks|)
    decreases |tasks| - m
  {
    if m < |tasks| {
      ChainStep(tasks, m);
      ChainLayersFrom(tasks, m + 1);
      assert Singletons(m, |tasks|) == [[m]] + Singletons(m + 1, |tasks|);
    } else {
      assert DistinctIds(tasks[..m]);
      IdSetSizeDistinct(tasks[..m]);
      assert |IdSet(tasks[..m])| >= |tasks|;
    }
  }

  /** In a full chain, once the first `m` sub-tasks are processed the next layer is `[m]`. */
  lemma ChainStep(tasks: seq<SubTask>, m: nat)
    requires DistinctIds(tasks) && IsFullChain(tasks) && m < |tasks|
    ensures Layers(tasks, IdSet(tasks[..m])) == [[m]] + Layers(tasks, IdSet(tasks[..m + 1]))
  {
    var P := IdSet(tasks[..m]);
    assert DistinctIds(tasks[..m]);
    IdSetSizeDistinct(tasks[..m]);
    ChainReadyIsNext(tasks, m);
    ScanTakesOne(tasks, P, 0, m);
    LayersStep(tasks, P);
    assert GroupIds(tasks, [m]) == {tasks[m].id};
    IdSetSnoc(tasks, m);
  }

  lemma IdSetSnoc(tasks: seq<SubTask>, m: nat)
    requires m < |tasks|
    ensures IdSet(tasks[..m + 1]) == IdSet(tasks[..m]) + {tasks[m].id}
  {
    assert tasks[..m + 1][..m] == tasks[..m];
  }

  /** On a full chain the layering is one singleton group per sub-task, in order. */
  lemma ChainGivesSingletons(tasks: seq<SubTask>)
    requires DistinctIds(tasks) && IsFullChain(tasks)
    ensures GetParallelizableGroups(tasks) == Singletons(0, |tasks|)
  {
    ChainLayersFrom(tasks, 0);
    assert tasks[..0] == [];
  }
}
