/**
  Three-item bullet lists in which only the middle item names a sequencing
  cue (such as "After ..."). The first and last items carry no cue and so get
  no dependency; only the middle one waits for the first. Layering therefore
  runs items one and three together and item two after them: two groups, not
  a chain of three. The description "- Set up database", "- After db, run
  migrations", "- Deploy" is such a list.
*/
module DecomposerExample {
  import opened Wrappers
  import opened Strings
  import opened Types
  import opened Decomposer

  /** Lines that are all non-blank pass the blank-line filter unchanged. */
  lemma {:induction false} NonBlankKeepsAll(lines: seq<string>)
    requires forall i :: 0 <= i < |lines| ==> Trim(lines[i]) != ""
    ensures NonBlank(lines) == lines
  {
    if |lines| > 0 {
      NonBlankKeepsAll(lines[..|lines| - 1]);
      assert lines[..|lines| - 1] + [lines[|lines| - 1]] == lines;
    }
  }

  /** A line "- <item>", where the item neither starts nor ends with whitespace
      and holds no line terminator, is a bullet item with description `item`. */
  lemma BulletItem(item: string)
    requires BulletReady(item)
    ensures ListItemText(Trim("- " + item)) == Some(item)
  {
    var line := "- " + item;
    TrimUnpadded(line);
    assert SkipLeading(line, 2) == 2;
    assert SkipLeading(line, 1) == 2;
    forall j | 2 <= j < |line| ensures !IsLineTerminator(line[j]) {
      assert line[j] == item[j - 2] && item[j - 2] in item;
    }
    assert line[2..] == item;
  }

  /** A text starting with "After" carries a cue. */
  lemma AfterCue(d: string)
    requires |d| >= 5 && d[..5] == "After"
    ensures HasSequencingCue(d)
  {
    var lower := ToLowerAscii(d);
    assert lower[..5] == "after";
    assert OccursAt(lower, "after", 0);
    ContainsMeansOccurs(lower, "after");
  }

  /** A text without the letters f, h and n (in either case) has no cue. */
  lemma NoCue(d: string)
    requires 'f' !in d && 'F' !in d && 'h' !in d && 'H' !in d && 'n' !in d && 'N' !in d
    ensures !HasSequencingCue(d)
  {
    var lower := ToLowerAscii(d);
    forall i | 0 <= i < |lower| ensures lower[i] != 'f' && lower[i] != 'h' && lower[i] != 'n' {
      assert d[i] in d;
    }
    MissingCharNotContained(lower, "after", 'f');
    MissingCharNotContained(lower, "once", 'n');
    MissingCharNotContained(lower, "then", 'h');
    MissingCharNotContained(lower, "following", 'f');
  }

  /** The conditions under which "- <item>" is a bullet item with description `item`. */
  predicate BulletReady(item: string) {
    && |item| >= 1 && !IsWhitespace(item[0]) && !IsWhitespace(item[|item| - 1])
    && '\n' !in item && '\r' !in item && '\U{2028}' !in item && '\U{2029}' !in item
  }

  /** The text of three bullet items, one per line. */
  function ThreeBullets(i1: string, i2: string, i3: string): string {
    ("- " + i1) + "\n" + ("- " + i2) + "\n" + ("- " + i3)
  }

  /** Three bullet items split into their three lines, none blank. */
  lemma ThreeBulletLines(i1: string, i2: string, i3: string)
    requires BulletReady(i1) && BulletReady(i2) && BulletReady(i3)
    ensures NonBlankLines(ThreeBullets(i1, i2, i3)) == ["- " + i1, "- " + i2, "- " + i3]
  {
    var l1, l2, l3 := "- " + i1, "- " + i2, "- " + i3;
    var lines := [l1, l2, l3];
    assert lines[1..] == [l2, l3] && lines[1..][1..] == [l3];
    assert Join([l3], "\n") == l3;
    assert Join([l2, l3], "\n") == l2 + "\n" + l3;
    assert Join(lines, "\n") == l1 + "\n" + (l2 + "\n" + l3);
    assert l1 + "\n" + (l2 + "\n" + l3) == ThreeBullets(i1, i2, i3);
    assert '\n' !in l1 by { assert l1 == ['-', ' '] + i1; }
    assert '\n' !in l2 by { assert l2 == ['-', ' '] + i2; }
    assert '\n' !in l3 by { assert l3 == ['-', ' '] + i3; }
    SplitJoin(lines, '\n');
    TrimUnpadded(l1);
    TrimUnpadded(l2);
    TrimUnpadded(l3);
    NonBlankKeepsAll(lines);
  }

  /** Three non-blank list-item lines of which only the middle item has a cue:
      three steps, and only the middle one depends on its predecessor. */
  lemma ItemSteps(l1: string, l2: string, l3: string, i1: string, i2: string, i3: string)
    requires ListItemText(Trim(l1)) == Some(i1) && ListItemText(Trim(l2)) == Some(i2) && ListItemText(Trim(l3)) == Some(i3)
    requires !HasSequencingCue(i1) && HasSequencingCue(i2) && !HasSequencingCue(i3)
    ensures ExtractSteps([l1, l2, l3]) == [Step(i1, []), Step(i2, [TaskId(1)]), Step(i3, [])]
  {
    ItemStep(l1, i1, 0);
    ItemStep(l2, i2, 1);
    ItemStep(l3, i3, 2);
    ThreeLineSteps(l1, l2, l3, Step(i1, []), Step(i2, [TaskId(1)]), Step(i3, []));
  }

  /** Three lines whose steps are given extract to exactly those steps. */
  lemma ThreeLineSteps(l1: string, l2: string, l3: string, s1: Step, s2: Step, s3: Step)
    requires StepFor(l1, 0) == Some(s1) && StepFor(l2, 1) == Some(s2) && StepFor(l3, 2) == Some(s3)
    ensures ExtractSteps([l1, l2, l3]) == [s1, s2, s3]
  {
    assert [l1, l2, l3][..2] == [l1, l2];
    assert [l1, l2][..1] == [l1];
    assert [l1][..0] == [];
    assert ExtractLoop([l1]) == [s1];
    assert ExtractLoop([l1, l2]) == [s1, s2];
    assert ExtractLoop([l1, l2, l3]) == [s1, s2, s3];
  }


  /** The step for a list-item line keeps the item's text. */
  lemma ItemStep(line: string, item: string, k: nat)
    requires ListItemText(Trim(line)) == Some(item)
    ensures StepFor(line, k) == Some(Step(item, if HasSequencingCue(item) && k > 0 then [TaskId(k)] else []))
  {
  }


  /** Three bullet items of which only the middle one has a cue: three steps,
      and only the middle one depends on its predecessor. */
  lemma ThreeBulletSteps(i1: string, i2: string, i3: string)
    requires BulletReady(i1) && BulletReady(i2) && BulletReady(i3)
    requires !HasSequencingCue(i1) && HasSequencingCue(i2) && !HasSequencingCue(i3)
    ensures ExtractSteps(NonBlankLines(ThreeBullets(i1, i2, i3))) == [Step(i1, []), Step(i2, [TaskId(1)]), Step(i3, [])]
  {
    ThreeBulletLines(i1, i2, i3);
    BulletItem(i1);
    BulletItem(i2);
    BulletItem(i3);
    ItemSteps("- " + i1, "- " + i2, "- " + i3, i1, i2, i3);
  }

  /** Three sub-tasks with distinct ids where only the second depends, on the first. */
  predicate MiddleDepends(tasks: seq<SubTask>) {
    && |tasks| == 3
    && tasks[0].id != tasks[1].id && tasks[0].id != tasks[2].id && tasks[1].id != tasks[2].id
    && tasks[0].dependencies == [] && tasks[1].dependencies == [tasks[0].id] && tasks[2].dependencies == []
  }

  lemma FirstScan(tasks: seq<SubTask>)
    requires MiddleDepends(tasks)
    ensures ReadyTasks(tasks, {}) == [0, 2]
    ensures GroupIds(tasks, [0, 2]) == {tasks[0].id, tasks[2].id}
  {
    assert tasks[0].id in tasks[1].dependencies;
    assert !IsReady(tasks, {}, 1);
    assert ReadyFrom(tasks, {}, 3) == [];
    assert ReadyFrom(tasks, {}, 1) == [2];
  }

  lemma SecondScan(tasks: seq<SubTask>)
    requires MiddleDepends(tasks)
    ensures ReadyTasks(tasks, {tasks[0].id, tasks[2].id}) == [1]
    ensures |{tasks[0].id, tasks[2].id} + GroupIds(tasks, [1])| == 3
  {
    var first := {tasks[0].id, tasks[2].id};
    assert !IsReady(tasks, first, 0) && IsReady(tasks, first, 1) && !IsReady(tasks, first, 2);
    assert ReadyFrom(tasks, first, 3) == [];
    assert ReadyFrom(tasks, first, 2) == [];
    assert ReadyFrom(tasks, first, 1) == [1];
    assert GroupIds(tasks, [1]) == {tasks[1].id};
  }

  lemma FirstLayer(tasks: seq<SubTask>)
    requires MiddleDepends(tasks)
    ensures Layers(tasks, {}) == [[0, 2]] + Layers(tasks, {tasks[0].id, tasks[2].id})
  {
    FirstScan(tasks);
    LayersStep(tasks, {});
    assert {} + GroupIds(tasks, [0, 2]) == {tasks[0].id, tasks[2].id};
  }

  lemma SecondLayer(tasks: seq<SubTask>)
    requires MiddleDepends(tasks)
    ensures Layers(tasks, {tasks[0].id, tasks[2].id}) == [[1]]
  {
    SecondScan(tasks);
    var first := {tasks[0].id, tasks[2].id};
    assert |first| == 2;
    LayersStep(tasks, first);
    assert Layers(tasks, first + GroupIds(tasks, [1])) == [];
  }

  /** Such sub-tasks layer as the first and third together, then the second. */
  lemma ThreeTaskLayers(tasks: seq<SubTask>)
    requires MiddleDepends(tasks)
    ensures GetParallelizableGroups(tasks) == [[0, 2], [1]]
  {
    FirstLayer(tasks);
    SecondLayer(tasks);
  }

  /** A text whose lines give three steps, of which only the second depends on
      `task-1`, runs as two groups: the first and third steps together, then the
      second. */
  lemma StepsLayer(text: string, d1: string, d2: string, d3: string)
    requires ExtractSteps(NonBlankLines(text)) == [Step(d1, []), Step(d2, [TaskId(1)]), Step(d3, [])]
    ensures GetParallelizableGroups(Decompose(text)) == [[0, 2], [1]]
  {
    var steps := ExtractSteps(NonBlankLines(text));
    var tasks := Decompose(text);
    assert |tasks| == 3;
    assert tasks[0].dependencies == steps[0].dependencies == [];
    assert tasks[1].dependencies == steps[1].dependencies == [TaskId(1)];
    assert tasks[2].dependencies == steps[2].dependencies == [];
    TaskIdInjective(1, 2);
    TaskIdInjective(1, 3);
    TaskIdInjective(2, 3);
    ThreeTaskLayers(tasks);
  }

  /** Three bullet items of which only the middle one names a sequencing cue run
      as two groups, items one and three first, not as a chain of three. */
  lemma OnlyMiddleCueGroups(i1: string, i2: string, i3: string)
    requires BulletReady(i1) && BulletReady(i2) && BulletReady(i3)
    requires !HasSequencingCue(i1) && HasSequencingCue(i2) && !HasSequencingCue(i3)
    ensures GetParallelizableGroups(Decompose(ThreeBullets(i1, i2, i3))) == [[0, 2], [1]]
  {
    ThreeBulletSteps(i1, i2, i3);
    StepsLayer(ThreeBullets(i1, i2, i3), i1, i2, i3);
  }

  /** The description "- Set up database\n- After db, run migrations\n- Deploy". */
  const DatabaseExample: string := "- Set up database" + "\n" + "- After db, run migrations" + "\n" + "- Deploy"

  /** `"- " + item` is the bullet line written out. */
  lemma BulletLine(item: string, line: string)
    requires |line| == |item| + 2 && line[0] == '-' && line[1] == ' '
    requires forall k :: 2 <= k < |line| ==> line[k] == item[k - 2]
    ensures "- " + item == line
  {
  }

  lemma DatabaseExampleText(i1: string, i2: string, i3: string, text: string)
    requires i1 == "Set up database" && i2 == "After db, run migrations" && i3 == "Deploy"
    requires text == DatabaseExample
    ensures ThreeBullets(i1, i2, i3) == text
  {
    BulletLine(i1, "- Set up database");
    BulletLine(i2, "- After db, run migrations");
    BulletLine(i3, "- Deploy");
  }

  /** "Set up database" has no line terminator and no outer whitespace. */
  lemma SetUpDatabaseReady(d: string)
    requires d == "Set up database"
    ensures BulletReady(d)
  {
  }

  /** "Set up database" has none of the letters f, h, n. */
  lemma SetUpDatabaseLetters(d: string)
    requires d == "Set up database"
    ensures 'f' !in d && 'F' !in d && 'h' !in d && 'H' !in d && 'n' !in d && 'N' !in d
  {
  }

  lemma SetUpDatabaseItem(d: string)
    requires d == "Set up database"
    ensures BulletReady(d) && !HasSequencingCue(d)
  {
    SetUpDatabaseReady(d);
    SetUpDatabaseLetters(d);
    NoCue(d);
  }

  /** "After db, run migrations" has no outer whitespace. */
  lemma MigrationsEnds(d: string)
    requires d == "After db, run migrations"
    ensures |d| >= 1 && !IsWhitespace(d[0]) && !IsWhitespace(d[|d| - 1])
  {
  }

  /** "After db, run migrations" has no line terminator. */
  lemma MigrationsSingleLine(d: string)
    requires d == "After db, run migrations"
    ensures '\n' !in d && '\r' !in d && '\U{2028}' !in d && '\U{2029}' !in d
  {
  }

  lemma MigrationsItem(d: string)
    requires d == "After db, run migrations"
    ensures BulletReady(d) && HasSequencingCue(d)
  {
    MigrationsEnds(d);
    MigrationsSingleLine(d);
    assert d[..5] == "After";
    AfterCue(d);
  }

  /** "Deploy" has no line terminator, no outer whitespace and none of the letters f, h, n. */
  lemma DeployLetters(d: string)
    requires d == "Deploy"
    ensures BulletReady(d)
    ensures 'f' !in d && 'F' !in d && 'h' !in d && 'H' !in d && 'n' !in d && 'N' !in d
  {
  }

  lemma DeployItem(d: string)
    requires d == "Deploy"
    ensures BulletReady(d) && !HasSequencingCue(d)
  {
    DeployLetters(d);
    NoCue(d);
  }

  /** In that description only "After db, run migrations" has a cue, so the
      database and deploy steps run together first and the migrations after them. */
  lemma DatabaseExampleGroups()
    ensures GetParallelizableGroups(Decompose(DatabaseExample)) == [[0, 2], [1]]
  {
    var i1, i2, i3 := "Set up database", "After db, run migrations", "Deploy";
    DatabaseExampleText(i1, i2, i3, DatabaseExample);
    SetUpDatabaseItem(i1);
    MigrationsItem(i2);
    DeployItem(i3);
    OnlyMiddleCueGroups(i1, i2, i3);
  }
}
