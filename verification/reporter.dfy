/**
  The reporter (src/core/reporter.ts): projects sub-tasks into reports,
  counts statuses, writes the summary, formats durations and renders the
  report as text or Markdown.

  Clock readings are milliseconds (`nat`); `toISOString` is a parameter
  `iso` of the renderers. JSON output is kept as the report itself, since
  `JSON.stringify` is not part of this model.
*/
module Reporter {
  import opened Wrappers
  import opened Strings
  import opened Types

  // ---------------------------------------------------------------------------
  // Sub-task reports and counts

  /** `generateSubTaskReport`: the identifying fields and times are copied; a
      `Date` is always truthy, so `duration` is present exactly when both times
      are, and it is the time from start to end. The recorded error is copied
      as its message. */
  function GenerateSubTaskReport(st: SubTask): (r: SubTaskReport)
    ensures r.id == st.id && r.description == st.description && r.status == st.status
    ensures r.startTime == st.startTime && r.endTime == st.endTime
    ensures r.duration.Some? <==> st.startTime.Some? && st.endTime.Some?
    ensures r.duration.Some? ==> st.startTime.value + r.duration.value == st.endTime.value
    ensures r.result == st.result && r.error == st.error
  {
    var duration := if st.startTime.Some? && st.endTime.Some? then Some(st.endTime.value - st.startTime.value) else None;
    SubTaskReport(st.id, st.description, st.status, st.startTime, st.endTime, duration, st.result, st.error)
  }

  function ReportStatuses(reports: seq<SubTaskReport>): (r: seq<TaskStatus>)
    ensures |r| == |reports| && forall i :: 0 <= i < |reports| ==> r[i] == reports[i].status
  {
    seq(|reports|, i requires 0 <= i < |reports| => reports[i].status)
  }

  /** `${r.error || 'Unknown error'}`: a missing or empty message reads "Unknown error". */
  function ErrorOrUnknown(r: SubTaskReport): string {
    if r.error.None? || r.error.value == "" then "Unknown error" else r.error.value
  }

  /** The summary line of one failed sub-task. */
  function FailedLine(r: SubTaskReport): string {
    "- " + r.description + ": " + ErrorOrUnknown(r) + "\n"
  }

  /** The lines of the "Failed tasks" section: one per failed report, in report order. */
  function FailedLines(reports: seq<SubTaskReport>): (lines: seq<string>)
    ensures |lines| == CountStatus(ReportStatuses(reports), Failed)
  {
    if |reports| == 0 then []
    else
      var init := reports[..|reports| - 1];
      var last := reports[|reports| - 1];
      assert ReportStatuses(reports)[..|reports| - 1] == ReportStatuses(init);
      FailedLines(init) + (if last.status == Failed then [FailedLine(last)] else [])
  }

  /** `line` is the summary line of some failed report. */
  predicate IsFailedLine(reports: seq<SubTaskReport>, line: string) {
    exists i :: 0 <= i < |reports| && reports[i].status == Failed && line == FailedLine(reports[i])
  }

  /** Every failed report has its line in the section, and every line of the
      section belongs to a failed report. */
  lemma {:induction false} FailedLinesExact(reports: seq<SubTaskReport>)
    ensures forall i :: 0 <= i < |reports| && reports[i].status == Failed ==> FailedLine(reports[i]) in FailedLines(reports)
    ensures forall k :: 0 <= k < |FailedLines(reports)| ==> IsFailedLine(reports, FailedLines(reports)[k])
  {
    if |reports| > 0 {
      var init := reports[..|reports| - 1];
      FailedLinesExact(init);
      assert forall i :: 0 <= i < |init| ==> init[i] == reports[i];
      var lines := FailedLines(reports);
      var extra := if reports[|reports| - 1].status == Failed then [FailedLine(reports[|reports| - 1])] else [];
      assert lines == FailedLines(init) + extra;
      forall i | 0 <= i < |reports| && reports[i].status == Failed ensures FailedLine(reports[i]) in lines {
        if i < |init| {
          assert FailedLine(init[i]) in FailedLines(init);
        } else {
          assert lines[|lines| - 1] == FailedLine(reports[i]);
        }
      }
      forall k | 0 <= k < |lines| ensures IsFailedLine(reports, lines[k]) {
        if k < |FailedLines(init)| {
          assert IsFailedLine(init, FailedLines(init)[k]);
          var i :| 0 <= i < |init| && init[i].status == Failed && FailedLines(init)[k] == FailedLine(init[i]);
          assert reports[i] == init[i];
        } else {
          assert lines[k] == FailedLine(reports[|reports| - 1]);
        }
      }
    }
  }

  /** The head of the summary: the description and the four counts. */
  function SummaryHead(description: string, total: nat, completed: nat, failed: nat, skipped: nat): string {
    "Task \"" + description + "\" completed.\n"
    + "Total sub-tasks: " + NatToString(total) + "\n"
    + "Completed: " + NatToString(completed) + "\n"
    + "Failed: " + NatToString(failed) + "\n"
    + "Skipped: " + NatToString(skipped) + "\n"
  }

  /** `generateSummary`, counting over the sub-task reports. */
  function GenerateSummary(description: string, reports: seq<SubTaskReport>): string {
    var statuses := ReportStatuses(reports);
    var failed := CountStatus(statuses, Failed);
    SummaryHead(description, |reports|, CountStatus(statuses, Completed), failed, CountStatus(statuses, Skipped))
    + (if failed > 0 then "\nFailed tasks:\n" + Concat(FailedLines(reports)) else "")
  }

  /** `generateReport`: one report per sub-task, in order, the three status
      counts, and the run's times. The counts never exceed the total. */
  function GenerateReport(task: Task, start: nat, end: nat): (r: TaskReport)
    ensures r.taskId == task.id && r.description == task.description
    ensures r.totalSubTasks == |task.subTasks| == |r.subTaskReports|
    ensures forall i :: 0 <= i < |task.subTasks| ==> r.subTaskReports[i] == GenerateSubTaskReport(task.subTasks[i])
    ensures r.completedSubTasks + r.failedSubTasks + r.skippedSubTasks <= r.totalSubTasks
    ensures r.startTime == start && r.endTime == Some(end) && r.duration == Some(end - start)
  {
    var statuses := StatusesOf(task.subTasks);
    CountsPartition(statuses);
    var reports := seq(|task.subTasks|, i requires 0 <= i < |task.subTasks| => GenerateSubTaskReport(task.subTasks[i]));
    TaskReport(
      task.id, task.description, |task.subTasks|,
      CountStatus(statuses, Completed), CountStatus(statuses, Failed), CountStatus(statuses, Skipped),
      start, Some(end), Some(end - start), reports,
      GenerateSummary(task.description, reports))
  }

  /** The counts of the report are the status counts of the sub-tasks; they add
      up to the total exactly when no sub-task is pending or in progress, and a
      count is zero exactly when no sub-task has that status. */
  lemma ReportCounts(task: Task, start: nat, end: nat)
    ensures var r := GenerateReport(task, start, end);
      && (r.completedSubTasks + r.failedSubTasks + r.skippedSubTasks == r.totalSubTasks
          <==> forall i :: 0 <= i < |task.subTasks| ==> task.subTasks[i].status != Pending && task.subTasks[i].status != InProgress)
      && (r.failedSubTasks == 0 <==> forall i :: 0 <= i < |task.subTasks| ==> task.subTasks[i].status != Failed)
      && (r.completedSubTasks == 0 <==> forall i :: 0 <= i < |task.subTasks| ==> task.subTasks[i].status != Completed)
      && (r.skippedSubTasks == 0 <==> forall i :: 0 <= i < |task.subTasks| ==> task.subTasks[i].status != Skipped)
  {
    var statuses := StatusesOf(task.subTasks);
    var r := GenerateReport(task, start, end);
    assert r.completedSubTasks == CountStatus(statuses, Completed);
    assert r.failedSubTasks == CountStatus(statuses, Failed);
    assert r.skippedSubTasks == CountStatus(statuses, Skipped);
    CountsPartition(statuses);
    TaskCountZero(task.subTasks, Pending);
    TaskCountZero(task.subTasks, InProgress);
    TaskCountZero(task.subTasks, Failed);
    TaskCountZero(task.subTasks, Completed);
    TaskCountZero(task.subTasks, Skipped);
  }

  /** The summary, although it counts over the sub-task reports, shows the
      report's own counts; its "Failed tasks" section is present exactly when
      something failed and then holds one line per failed sub-task. */
  lemma SummaryAgrees(task: Task, start: nat, end: nat)
    ensures var r := GenerateReport(task, start, end);
      var head := SummaryHead(task.description, r.totalSubTasks, r.completedSubTasks, r.failedSubTasks, r.skippedSubTasks);
      && |r.summary| >= |head| && r.summary[..|head|] == head
      && (r.summary == head <==> r.failedSubTasks == 0)
      && (r.failedSubTasks > 0 ==>
            && r.summary[|head|..] == "\nFailed tasks:\n" + Concat(FailedLines(r.subTaskReports))
            && |FailedLines(r.subTaskReports)| == r.failedSubTasks)
  {
    var r := GenerateReport(task, start, end);
    assert ReportStatuses(r.subTaskReports) == StatusesOf(task.subTasks);
  }

  // ---------------------------------------------------------------------------
  // Durations

  /** `formatDuration`. `Math.floor(x / 1000)` and `Math.floor(x / 60)` are
      Dafny's division by a positive constant; the `%` operands are positive in
      the branches that use them, where JavaScript's remainder agrees with
      Dafny's. A negative `ms` prints the negative seconds. */
  function FormatDuration(ms: int): string {
    var seconds := ms / 1000;
    var minutes := seconds / 60;
    var hours := minutes / 60;
    if hours > 0 then HoursText(hours, minutes % 60, seconds % 60)
    else if minutes > 0 then MinutesText(minutes, seconds % 60)
    else IntToString(seconds) + "s"
  }

  /** The three shapes a duration text takes. */
  datatype DurationText = Hms(h: nat, m: nat, s: nat) | Ms(m: nat, s: nat) | Sec(s: nat)

  function TotalSeconds(d: DurationText): nat {
    match d
    case Hms(h, m, s) => h * 3600 + m * 60 + s
    case Ms(m, s) => m * 60 + s
    case Sec(s) => s
  }

  /** Leading unit non-zero, lower units below 60. */
  predicate Canonical(d: DurationText) {
    match d
    case Hms(h, m, s) => h > 0 && m < 60 && s < 60
    case Ms(m, s) => 0 < m < 60 && s < 60
    case Sec(s) => s < 60
  }

  /** "<s>s". */
  function SecondsText(s: nat): string {
    NatToString(s) + ['s']
  }

  /** "<m>m <s>s". */
  function MinutesText(m: nat, s: nat): string {
    NatToString(m) + (['m', ' '] + SecondsText(s))
  }

  /** "<h>h <m>m <s>s". */
  function HoursText(h: nat, m: nat, s: nat): string {
    NatToString(h) + (['h', ' '] + MinutesText(m, s))
  }

  /** `rest` is the unit letter `u`, a space, then `tail`. */
  predicate UnitThen(rest: string, u: char) {
    |rest| >= 2 && rest[0] == u && rest[1] == ' '
  }

  /** Reads "<h>h <m>m <s>s", "<m>m <s>s" or "<s>s" back. */
  function ParseDuration(t: string): Option<DurationText> {
    match LeadingNumber(t)
    case None => None
    case Some((a, rest)) => DurationAfter(a, rest)
  }

  /** The rest of a duration after its leading number `a`. */
  function DurationAfter(a: nat, rest: string): Option<DurationText> {
    if rest == ['s'] then Some(Sec(a))
    else if UnitThen(rest, 'm') then
      match ParseSeconds(rest[2..])
      case Some(b) => Some(Ms(a, b))
      case None => None
    else if UnitThen(rest, 'h') then
      match ParseMinutes(rest[2..])
      case Some((b, c)) => Some(Hms(a, b, c))
      case None => None
    else None
  }

  /** Reads "<s>s". */
  function ParseSeconds(t: string): Option<nat> {
    match LeadingNumber(t)
    case Some((s, tail)) => if tail == ['s'] then Some(s) else None
    case None => None
  }

  /** Reads "<m>m <s>s". */
  function ParseMinutes(t: string): Option<(nat, nat)> {
    match LeadingNumber(t)
    case Some((m, rest)) =>
      if UnitThen(rest, 'm') then
        match ParseSeconds(rest[2..])
        case Some(s) => Some((m, s))
        case None => None
      else None
    case None => None
  }

  /** For a non-negative `ms`, the text reads back as canonical components worth
      `ms` in whole seconds; hours appear exactly from one hour on and minutes
      (without hours) exactly from one minute up to an hour. */
  lemma FormatDurationRoundTrip(ms: int)
    requires ms >= 0
    ensures var d := ParseDuration(FormatDuration(ms));
      && d.Some? && Canonical(d.value) && TotalSeconds(d.value) == ms / 1000
      && (d.value.Hms? <==> ms >= 3600000)
      && (d.value.Ms? <==> 60000 <= ms < 3600000)
  {
    var seconds := ms / 1000;
    var minutes := seconds / 60;
    var hours := minutes / 60;
    ClockSplit(ms);
    if hours > 0 {
      ParseHms(hours, minutes % 60, seconds % 60);
    } else if minutes > 0 {
      ParseMs(minutes, seconds % 60);
    } else {
      LeadingNumberOfNatToString(seconds, "s");
    }
  }

  /** The arithmetic of `formatDuration`'s three divisions. */
  lemma ClockSplit(ms: int)
    requires ms >= 0
    ensures var seconds := ms / 1000;
      var minutes := seconds / 60;
      var hours := minutes / 60;
      && seconds == hours * 3600 + (minutes % 60) * 60 + seconds % 60
      && seconds == minutes * 60 + seconds % 60
      && (hours > 0 <==> ms >= 3600000)
      && (minutes > 0 <==> ms >= 60000)
  {
  }

  lemma ParseSecondsOf(s: nat)
    ensures ParseSeconds(SecondsText(s)) == Some(s)
  {
    LeadingNumberOfNatToString(s, ['s']);
  }

  /** The unit letter and space come off the front of `[u, ' '] + tail`. */
  lemma UnitThenTail(u: char, tail: string)
    ensures UnitThen([u, ' '] + tail, u) && ([u, ' '] + tail)[2..] == tail
  {
  }

  lemma ParseMinutesOf(m: nat, s: nat)
    ensures ParseMinutes(MinutesText(m, s)) == Some((m, s))
  {
    var rest := ['m', ' '] + SecondsText(s);
    LeadingNumberOfNatToString(m, rest);
    UnitThenTail('m', SecondsText(s));
    ParseSecondsOf(s);
  }

  lemma ParseHms(h: nat, m: nat, s: nat)
    ensures ParseDuration(HoursText(h, m, s)) == Some(Hms(h, m, s))
  {
    var rest := ['h', ' '] + MinutesText(m, s);
    LeadingNumberOfNatToString(h, rest);
    UnitThenTail('h', MinutesText(m, s));
    assert rest != ['s'] && !UnitThen(rest, 'm');
    ParseMinutesOf(m, s);
  }

  lemma ParseMs(m: nat, s: nat)
    ensures ParseDuration(MinutesText(m, s)) == Some(Ms(m, s))
  {
    var rest := ['m', ' '] + SecondsText(s);
    LeadingNumberOfNatToString(m, rest);
    UnitThenTail('m', SecondsText(s));
    assert rest != ['s'];
    ParseSecondsOf(s);
  }

  /** Two non-negative durations print the same exactly when they have the same whole seconds. */
  lemma FormatDurationInjective(a: int, b: int)
    requires a >= 0 && b >= 0
    ensures FormatDuration(a) == FormatDuration(b) <==> a / 1000 == b / 1000
  {
    FormatDurationRoundTrip(a);
    FormatDurationRoundTrip(b);
  }

  // ---------------------------------------------------------------------------
  // Status emoji and output format

  /** `getStatusEmoji`; a pending sub-task takes the default branch. */
  function GetStatusEmoji(s: TaskStatus): (e: string)
    ensures e == "\U{23F8}\U{FE0F}" <==> s == Pending
  {
    match s
    case Completed => "\U{2705}"
    case Failed => "\U{274C}"
    case InProgress => "\U{23F3}"
    case Skipped => "\U{23ED}\U{FE0F}"
    case Pending => "\U{23F8}\U{FE0F}"
  }

  /** Different statuses get different emoji. */
  lemma StatusEmojiInjective(a: TaskStatus, b: TaskStatus)
    ensures GetStatusEmoji(a) == GetStatusEmoji(b) <==> a == b
  {
  }

  datatype Format = Json | Markdown | Text

  /** The `switch` of `printReport`: strict comparison, text for anything else. */
  function SelectFormat(outputFormat: string): (f: Format)
    ensures f == Json <==> outputFormat == "json"
    ensures f == Markdown <==> outputFormat == "markdown"
  {
    if outputFormat == "json" then Json
    else if outputFormat == "markdown" then Markdown
    else Text
  }

  // ---------------------------------------------------------------------------
  // Rendering

  /** `if (subReport.duration)`: present and non-zero. */
  predicate HasDuration(sr: SubTaskReport) {
    sr.duration.Some? && sr.duration.value != 0
  }

  /** `if (subReport.error)`: present and non-empty. */
  predicate HasError(sr: SubTaskReport) {
    sr.error.Some? && sr.error.value != ""
  }

  /** `gitChanges && gitChanges.filesChanged.length > 0`. */
  predicate HasFiles(res: TaskResult) {
    res.gitChanges.Some? && |res.gitChanges.value.filesChanged| > 0
  }

  /** `${flag}` of a boolean. */
  function BoolText(b: bool): string {
    if b then "true" else "false"
  }

  /** `${date?.toISOString() || 'N/A'}`. */
  function EndTimeText(endTime: Option<nat>, iso: nat -> string): string {
    if endTime.None? || iso(endTime.value) == "" then "N/A" else iso(endTime.value)
  }

  function Rule(c: char): string {
    Repeat(c, 80)
  }

  /** The optional duration line of an entry, after the rendering's `heading`:
      present exactly when the duration is present and non-zero. */
  function DurationLine(heading: string, sr: SubTaskReport): (line: string)
    ensures line == "" <==> !HasDuration(sr)
  {
    if HasDuration(sr) then heading + FormatDuration(sr.duration.value) + "\n" else ""
  }

  function TextResultLines(res: TaskResult): string {
    "   Success: " + BoolText(res.success) + "\n"
    + (if res.verification.Some? then "   Verification: " + (if res.verification.value.passed then "PASSED" else "FAILED") + "\n" else "")
    + (if HasFiles(res) then "   Files Changed: " + Join(res.gitChanges.value.filesChanged, ", ") + "\n" else "")
  }

  /** An entry numbered `index + 1`: the lead, the number, ". ", the body. */
  function Numbered(lead: string, index: nat, body: string): string {
    lead + NatToString(index + 1) + ". " + body
  }

  /** The text entry of the report at `index`, numbered `index + 1`. */
  function TextEntry(index: nat, sr: SubTaskReport): string {
    Numbered("\n", index, TextEntryBody(sr))
  }

  /** A text entry after its number. */
  function TextEntryBody(sr: SubTaskReport): string {
    sr.description + "\n"
    + "   Status: " + StatusName(sr.status) + "\n"
    + DurationLine("   Duration: ", sr)
    + (if sr.result.Some? then TextResultLines(sr.result.value) else "")
    + (if HasError(sr) then "   Error: " + sr.error.value + "\n" else "")
  }

  /** One text entry per report, in order. */
  function TextEntries(srs: seq<SubTaskReport>): seq<string> {
    seq(|srs|, i requires 0 <= i < |srs| => TextEntry(i, srs[i]))
  }

  /** `formatAsText`. */
  function FormatAsText(report: TaskReport, iso: nat -> string): string {
    "\n" + Rule('=') + "\n" + "TASK EXECUTION REPORT\n" + Rule('=') + "\n\n"
    + "Task: " + report.description + "\n"
    + "Task ID: " + report.taskId + "\n"
    + "Start Time: " + iso(report.startTime) + "\n"
    + "End Time: " + EndTimeText(report.endTime, iso) + "\n"
    + "Duration: " + FormatDuration(report.duration.GetOr(0)) + "\n\n"
    + "Summary:\n" + Rule('-') + "\n"
    + "Total Sub-tasks: " + NatToString(report.totalSubTasks) + "\n"
    + "Completed: " + NatToString(report.completedSubTasks) + "\n"
    + "Failed: " + NatToString(report.failedSubTasks) + "\n"
    + "Skipped: " + NatToString(report.skippedSubTasks) + "\n\n"
    + "Sub-tasks:\n" + Rule('-') + "\n"
    + Concat(TextEntries(report.subTaskReports))
    + "\n" + Rule('=') + "\n" + report.summary + Rule('=') + "\n"
  }

  function MarkdownResultLines(res: TaskResult): string {
    "- **Success**: " + (if res.success then "\U{2705}" else "\U{274C}") + "\n"
    + (if res.verification.Some? then
         "- **Verification**: " + (if res.verification.value.passed then "\U{2705} PASSED" else "\U{274C} FAILED") + "\n"
       else "")
    + (if HasFiles(res) then
         var files := res.gitChanges.value.filesChanged;
         "- **Files Changed**: " + NatToString(|files|) + "\n" + FileBullets(files)
       else "")
  }

  /** One "  - <file>" line per changed file. */
  function FileBullets(files: seq<string>): string {
    if |files| == 0 then "" else FileBullets(files[..|files| - 1]) + "  - " + files[|files| - 1] + "\n"
  }

  /** The Markdown entry of the report at `index`, numbered `index + 1`. */
  function MarkdownEntry(index: nat, sr: SubTaskReport): string {
    Numbered("### ", index, MarkdownEntryBody(sr))
  }

  /** A Markdown entry after its number. */
  function MarkdownEntryBody(sr: SubTaskReport): string {
    sr.description + "\n\n"
    + "- **Status**: " + GetStatusEmoji(sr.status) + " " + StatusName(sr.status) + "\n"
    + DurationLine("- **Duration**: ", sr)
    + (if sr.result.Some? then MarkdownResultLines(sr.result.value) else "")
    + (if HasError(sr) then "- **Error**: " + sr.error.value + "\n" else "")
    + "\n"
  }

  /** One Markdown entry per report, in order. */
  function MarkdownEntries(srs: seq<SubTaskReport>): seq<string> {
    seq(|srs|, i requires 0 <= i < |srs| => MarkdownEntry(i, srs[i]))
  }

  /** `formatAsMarkdown`. */
  function FormatAsMarkdown(report: TaskReport, iso: nat -> string): string {
    "# Task Execution Report\n\n"
    + "## Task: " + report.description + "\n\n"
    + "- **Task ID**: " + report.taskId + "\n"
    + "- **Start Time**: " + iso(report.startTime) + "\n"
    + "- **End Time**: " + EndTimeText(report.endTime, iso) + "\n"
    + "- **Duration**: " + FormatDuration(report.duration.GetOr(0)) + "\n\n"
    + "## Summary\n\n"
    + "| Metric | Count |\n"
    + "|--------|-------|\n"
    + "| Total Sub-tasks | " + NatToString(report.totalSubTasks) + " |\n"
    + "| Completed | " + NatToString(report.completedSubTasks) + " |\n"
    + "| Failed | " + NatToString(report.failedSubTasks) + " |\n"
    + "| Skipped | " + NatToString(report.skippedSubTasks) + " |\n\n"
    + "## Sub-tasks\n\n"
    + Concat(MarkdownEntries(report.subTaskReports))
  }

  /** Each entry opens with its lead ("\n" in the text rendering, "### " in
      Markdown) and then its number, `index + 1`, which reads back from the
      text followed by ". ". */
  lemma EntryNumbering(lead: string, index: nat, body: string)
    ensures var e := Numbered(lead, index, body);
      && e[..|lead|] == lead
      && var n := LeadingNumber(e[|lead|..]);
      && n.Some? && n.value.0 == index + 1 && n.value.1 == ". " + body
  {
    var num := NatToString(index + 1);
    var e := Numbered(lead, index, body);
    assert e == lead + (num + (". " + body));
    assert e[|lead|..] == num + (". " + body);
    LeadingNumberOfNatToString(index + 1, ". " + body);
  }

  /** Both renderings hold one entry per sub-task report, in report order: the
      entry at `i` is numbered `i + 1` and continues with that report's body. */
  lemma EntriesNumbered(srs: seq<SubTaskReport>)
    ensures |TextEntries(srs)| == |srs| && |MarkdownEntries(srs)| == |srs|
    ensures forall i :: 0 <= i < |srs| ==>
              var t := TextEntries(srs)[i];
              && t[..1] == "\n"
              && LeadingNumber(t[1..]) == Some((i + 1, ". " + TextEntryBody(srs[i])))
    ensures forall i :: 0 <= i < |srs| ==>
              var m := MarkdownEntries(srs)[i];
              && m[..4] == "### "
              && LeadingNumber(m[4..]) == Some((i + 1, ". " + MarkdownEntryBody(srs[i])))
  {
    forall i | 0 <= i < |srs|
      ensures var t := TextEntries(srs)[i];
        t[..1] == "\n" && LeadingNumber(t[1..]) == Some((i + 1, ". " + TextEntryBody(srs[i])))
    {
      EntryNumbering("\n", i, TextEntryBody(srs[i]));
    }
    forall i | 0 <= i < |srs|
      ensures var m := MarkdownEntries(srs)[i];
        m[..4] == "### " && LeadingNumber(m[4..]) == Some((i + 1, ". " + MarkdownEntryBody(srs[i])))
    {
      EntryNumbering("### ", i, MarkdownEntryBody(srs[i]));
    }
  }

  /** An entry shows a duration line exactly when the duration is present and
      non-zero: a zero duration renders like a missing one. */
  lemma DurationLineShown(index: nat, sr: SubTaskReport)
    ensures TextEntry(index, sr) == TextEntry(index, sr.(duration := None)) <==> !HasDuration(sr)
    ensures MarkdownEntry(index, sr) == MarkdownEntry(index, sr.(duration := None)) <==> !HasDuration(sr)
  {
    if HasDuration(sr) {
      assert |TextEntryBody(sr)| > |TextEntryBody(sr.(duration := None))|;
      assert |MarkdownEntryBody(sr)| > |MarkdownEntryBody(sr.(duration := None))|;
    }
  }

  // ---------------------------------------------------------------------------
  // printReport

  /** What is printed: the report as JSON, or a rendered text. */
  datatype Rendering = JsonOf(report: TaskReport) | Rendered(text: string)

  /** The printed output and, when a log file is configured, the file it is saved to. */
  datatype Printed = Printed(output: Rendering, savedTo: Option<string>)

  /** `printReport`: choose the format, render, and save when `logFile` is a
      non-empty string (an empty one is falsy). */
  function PrintReport(cfg: ReportingConfig, report: TaskReport, iso: nat -> string): (p: Printed)
    ensures p.output.JsonOf? <==> cfg.outputFormat == "json"
    ensures p.output.JsonOf? ==> p.output.report == report
    ensures cfg.outputFormat == "markdown" ==> p.output == Rendered(FormatAsMarkdown(report, iso))
    ensures cfg.outputFormat != "json" && cfg.outputFormat != "markdown" ==> p.output == Rendered(FormatAsText(report, iso))
    ensures p.savedTo.Some? <==> cfg.logFile.Some? && cfg.logFile.value != ""
    ensures p.savedTo.Some? ==> p.savedTo == cfg.logFile
  {
    var output := match SelectFormat(cfg.outputFormat)
      case Json => JsonOf(report)
      case Markdown => Rendered(FormatAsMarkdown(report, iso))
      case Text => Rendered(FormatAsText(report, iso));
    var saved := if cfg.logFile.Some? && cfg.logFile.value != "" then cfg.logFile else None;
    Printed(output, saved)
  }
}
