/**
 * The plain-text daily work report: a summary of all tasks (no date filter),
 * then the Done, In Progress and To Do tasks, each section replaced by a fixed
 * line when it has no tasks. The long-form date of today and the locale
 * rendering of a due date are parameters.
 */
module Report {
  import opened Seqs
  import opened Text
  import opened Entities
  import opened Progress

  const Rule := "================================="

  /** `${Math.floor(m / 60)}h ${m % 60}m`: hours are always shown, also when 0. */
  function Duration(minutes: nat): (r: string)
    ensures exists h: string, m: string ::
      IsDigits(h) && IsDigits(m) && DecimalValue(h) == minutes / 60 && DecimalValue(m) == minutes % 60
      && r == h + "h " + m + "m"
  {
    var h, m := NatToString(minutes / 60), NatToString(minutes % 60);
    assert IsDigits(h) && IsDigits(m);
    h + "h " + m + "m"
  }

  /** Different minute counts give different durations, so the text determines the time. */
  lemma DurationInjective(a: nat, b: nat)
    requires Duration(a) == Duration(b)
    ensures a == b
  {
    var ha: string, ma: string :| IsDigits(ha) && IsDigits(ma) && DecimalValue(ha) == a / 60
      && DecimalValue(ma) == a % 60 && Duration(a) == ha + "h " + ma + "m";
    var hb: string, mb: string :| IsDigits(hb) && IsDigits(mb) && DecimalValue(hb) == b / 60
      && DecimalValue(mb) == b % 60 && Duration(b) == hb + "h " + mb + "m";
    HoursMinutesUnique(ha, ma, hb, mb);
    assert a == 60 * (a / 60) + a % 60;
    assert b == 60 * (b / 60) + b % 60;
  }

  /** The two digit runs of an `Hh Mm` text are determined by the text. */
  lemma HoursMinutesUnique(h: string, m: string, h': string, m': string)
    requires IsDigits(h) && IsDigits(m) && IsDigits(h') && IsDigits(m')
    requires h + "h " + m + "m" == h' + "h " + m' + "m"
    ensures h == h' && m == m'
  {
    var s, s' := " " + m + "m", " " + m' + "m";
    assert h + "h " + m + "m" == h + ['h'] + s;
    assert h' + "h " + m' + "m" == h' + ['h'] + s';
    DigitRunUnique(h, s, h', s', 'h');
    assert m == s[1..|s| - 1];
    assert m' == s'[1..|s'| - 1];
  }

  predicate IsInProgress(t: DailyTask)
  {
    t.status == InProgress
  }

  predicate IsToDo(t: DailyTask)
  {
    t.status == ToDo
  }

  /** `dailyTasks.reduce((acc, task) => acc + task.timeSpent, 0)`. */
  function TotalMinutes(ts: seq<DailyTask>): nat
  {
    if ts == [] then 0 else ts[0].timeSpent + TotalMinutes(ts[1..])
  }

  /** Every task has exactly one of the three statuses. */
  lemma {:induction false} StatusCountsAddUp(ts: seq<DailyTask>)
    ensures Count(ts, IsDone) + Count(ts, IsInProgress) + Count(ts, IsToDo) == |ts|
  {
    if ts != [] {
      StatusCountsAddUp(ts[1..]);
    }
  }

  datatype Summary = Summary(total: nat, completed: nat, inProgress: nat, toDo: nat, minutes: nat)

  /** The SUMMARY block's numbers. */
  function ReportSummary(ts: seq<DailyTask>): (r: Summary)
    ensures r.total == |ts| == r.completed + r.inProgress + r.toDo
    ensures r.completed == Count(ts, IsDone) && r.inProgress == Count(ts, IsInProgress) && r.toDo == Count(ts, IsToDo)
    ensures r.minutes == TotalMinutes(ts)
  {
    StatusCountsAddUp(ts);
    Summary(|ts|, Count(ts, IsDone), Count(ts, IsInProgress), Count(ts, IsToDo), TotalMinutes(ts))
  }

  function CompletedItem(t: DailyTask): string
  {
    "\n  \U{2713} " + t.title + "\n    Time Spent: " + Duration(t.timeSpent)
      + "\n    Priority: " + PriorityName(t.priority) + "\n    Tags: " + Join(t.tags, ", ") + "\n"
  }

  function InProgressItem(t: DailyTask): string
  {
    "\n  \U{2022} " + t.title + "\n    Time Spent: " + Duration(t.timeSpent)
      + "\n    Priority: " + PriorityName(t.priority) + "\n"
  }

  function NextActionItem(t: DailyTask, formatDate: string -> string): string
  {
    "\n  \U{25CB} " + t.title + "\n    Due: " + formatDate(t.dueDate)
      + "\n    Priority: " + PriorityName(t.priority) + "\n"
  }

  /** `items.join('\n') || placeholder`. */
  function Section(items: seq<string>, placeholder: string): string
  {
    var joined := Join(items, "\n");
    if joined == "" then placeholder else joined
  }

  const NoCompleted := "  No tasks completed today"
  const NoInProgress := "  No tasks in progress"
  const NoPending := "  No pending tasks"

  function CompletedSection(ts: seq<DailyTask>): string
  {
    var done := Filter(ts, IsDone);
    Section(seq(|done|, i requires 0 <= i < |done| => CompletedItem(done[i])), NoCompleted)
  }

  function InProgressSection(ts: seq<DailyTask>): string
  {
    var active := Filter(ts, IsInProgress);
    Section(seq(|active|, i requires 0 <= i < |active| => InProgressItem(active[i])), NoInProgress)
  }

  function NextActionsSection(ts: seq<DailyTask>, formatDate: string -> string): string
  {
    var pending := Filter(ts, IsToDo);
    Section(seq(|pending|, i requires 0 <= i < |pending| => NextActionItem(pending[i], formatDate)), NoPending)
  }

  /**
   * Items all start with a line break and the placeholder with a space, so a
   * section shows its placeholder exactly when it has no items, and otherwise
   * the items joined by line breaks.
   */
  lemma SectionShowsPlaceholderIffEmpty(items: seq<string>, placeholder: string)
    requires forall i :: 0 <= i < |items| ==> items[i] != [] && items[i][0] == '\n'
    requires placeholder != [] && placeholder[0] == ' '
    ensures Section(items, placeholder) == placeholder <==> items == []
    ensures items != [] ==> Section(items, placeholder) == Join(items, "\n")
  {
    if items != [] {
      JoinStart(items, "\n");
    }
  }

  /** Each section prints its fixed line exactly when no task has its status. */
  lemma Placeholders(ts: seq<DailyTask>, formatDate: string -> string)
    ensures CompletedSection(ts) == NoCompleted <==> Count(ts, IsDone) == 0
    ensures InProgressSection(ts) == NoInProgress <==> Count(ts, IsInProgress) == 0
    ensures NextActionsSection(ts, formatDate) == NoPending <==> Count(ts, IsToDo) == 0
  {
    var done, active, pending := Filter(ts, IsDone), Filter(ts, IsInProgress), Filter(ts, IsToDo);
    SectionShowsPlaceholderIffEmpty(seq(|done|, i requires 0 <= i < |done| => CompletedItem(done[i])), NoCompleted);
    SectionShowsPlaceholderIffEmpty(seq(|active|, i requires 0 <= i < |active| => InProgressItem(active[i])), NoInProgress);
    SectionShowsPlaceholderIffEmpty(
      seq(|pending|, i requires 0 <= i < |pending| => NextActionItem(pending[i], formatDate)), NoPending);
  }

  /** A titled block of the report: a blank line, `TITLE:`, then the block's text on the lines below. */
  function Block(title: string, body: string): string
  {
    "\n" + title + ":\n" + body + "\n"
  }

  /** The report's first lines: a rule, the heading, the date, a rule. */
  function ReportHeader(today: string): string
  {
    "\n" + Rule + "\nDAILY WORK REPORT\n" + today + "\n" + Rule + "\n"
  }

  /** One `- Label: value` line of the summary. */
  function SummaryLine(name: string, value: string): string
  {
    "- " + name + ": " + value + "\n"
  }

  /** The SUMMARY block's five lines. */
  function SummaryText(s: Summary): string
  {
    SummaryLine("Total Tasks", NatToString(s.total))
      + SummaryLine("Completed", NatToString(s.completed))
      + SummaryLine("In Progress", NatToString(s.inProgress))
      + SummaryLine("To Do", NatToString(s.toDo))
      + SummaryLine("Total Time Tracked", Duration(s.minutes))
  }

  /** `generateDailyReport`'s text: the header, the summary, the three task sections and a closing rule. */
  function DailyReport(ts: seq<DailyTask>, today: string, formatDate: string -> string): string
  {
    ReportHeader(today) + "\nSUMMARY:\n" + SummaryText(ReportSummary(ts))
      + Block("COMPLETED TASKS", CompletedSection(ts))
      + Block("IN PROGRESS TASKS", InProgressSection(ts))
      + Block("NEXT ACTIONS", NextActionsSection(ts, formatDate))
      + "\n" + Rule + "\n"
  }

  /**
   * The report shows the heading and date, one summary line per count (each
   * the number of tasks with that status) and the total time, and each task
   * section under its title, the section being its placeholder exactly when
   * no task has that status (`Placeholders`).
   */
  lemma DailyReportContents(ts: seq<DailyTask>, today: string, formatDate: string -> string)
    ensures var r := DailyReport(ts, today, formatDate);
      && Contains(r, ReportHeader(today))
      && Contains(r, SummaryLine("Total Tasks", NatToString(|ts|)))
      && Contains(r, SummaryLine("Completed", NatToString(Count(ts, IsDone))))
      && Contains(r, SummaryLine("In Progress", NatToString(Count(ts, IsInProgress))))
      && Contains(r, SummaryLine("To Do", NatToString(Count(ts, IsToDo))))
      && Contains(r, SummaryLine("Total Time Tracked", Duration(TotalMinutes(ts))))
      && Contains(r, Block("COMPLETED TASKS", CompletedSection(ts)))
      && Contains(r, Block("IN PROGRESS TASKS", InProgressSection(ts)))
      && Contains(r, Block("NEXT ACTIONS", NextActionsSection(ts, formatDate)))
  {
    var s := ReportSummary(ts);
    var b1, b2 := Block("COMPLETED TASKS", CompletedSection(ts)), Block("IN PROGRESS TASKS", InProgressSection(ts));
    var b3 := Block("NEXT ACTIONS", NextActionsSection(ts, formatDate));
    ReportLayout(ReportHeader(today), SummaryText(s), b1, b2, b3);
    SummaryTextLines(s);
  }

  /** The report's layout holds its header, everything in its summary text and each of its three blocks. */
  lemma ReportLayout(h: string, st: string, b1: string, b2: string, b3: string)
    ensures var r := h + "\nSUMMARY:\n" + st + b1 + b2 + b3 + "\n" + Rule + "\n";
      && Contains(r, h) && Contains(r, b1) && Contains(r, b2) && Contains(r, b3)
      && forall sub :: Contains(st, sub) ==> Contains(r, sub)
  {
    var p1 := h + "\nSUMMARY:\n";
    var p2 := p1 + st;
    var p3 := p2 + b1;
    var p4 := p3 + b2;
    var p5 := p4 + b3;
    var p6 := p5 + "\n";
    var p7 := p6 + Rule;
    var r := p7 + "\n";
    forall sub | Contains(p5, sub) ensures Contains(r, sub) {
      ContainsLeft(p5, "\n", sub);
      ContainsLeft(p6, Rule, sub);
      ContainsLeft(p7, "\n", sub);
    }
    ContainsSelf(h);
    ContainsLeft(h, "\nSUMMARY:\n", h);
    ContainsLeft(p1, st, h);
    ContainsLeft(p2, b1, h);
    ContainsLeft(p3, b2, h);
    ContainsLeft(p4, b3, h);
    forall sub | Contains(st, sub) ensures Contains(p5, sub) {
      ContainsRight(p1, st, sub);
      ContainsLeft(p2, b1, sub);
      ContainsLeft(p3, b2, sub);
      ContainsLeft(p4, b3, sub);
    }
    ContainsSelf(b1);
    ContainsRight(p2, b1, b1);
    ContainsLeft(p3, b2, b1);
    ContainsLeft(p4, b3, b1);
    ContainsSelf(b2);
    ContainsRight(p3, b2, b2);
    ContainsLeft(p4, b3, b2);
    ContainsSelf(b3);
    ContainsRight(p4, b3, b3);
  }

  /** The summary text holds each of its five lines. */
  lemma SummaryTextLines(s: Summary)
    ensures Contains(SummaryText(s), SummaryLine("Total Tasks", NatToString(s.total)))
    ensures Contains(SummaryText(s), SummaryLine("Completed", NatToString(s.completed)))
    ensures Contains(SummaryText(s), SummaryLine("In Progress", NatToString(s.inProgress)))
    ensures Contains(SummaryText(s), SummaryLine("To Do", NatToString(s.toDo)))
    ensures Contains(SummaryText(s), SummaryLine("Total Time Tracked", Duration(s.minutes)))
  {
    var l1, l2 := SummaryLine("Total Tasks", NatToString(s.total)), SummaryLine("Completed", NatToString(s.completed));
    var l3, l4 := SummaryLine("In Progress", NatToString(s.inProgress)), SummaryLine("To Do", NatToString(s.toDo));
    var l5 := SummaryLine("Total Time Tracked", Duration(s.minutes));
    var q2, q3 := l1 + l2, l1 + l2 + l3;
    var q4 := q3 + l4;
    forall sub | Contains(q4, sub) ensures Contains(SummaryText(s), sub) {
      ContainsLeft(q4, l5, sub);
    }
    forall sub | Contains(q3, sub) ensures Contains(q4, sub) {
      ContainsLeft(q3, l4, sub);
    }
    forall sub | Contains(q2, sub) ensures Contains(q3, sub) {
      ContainsLeft(q2, l3, sub);
    }
    ContainsSelf(l1);
    ContainsLeft(l1, l2, l1);
    ContainsSelf(l2);
    ContainsRight(l1, l2, l2);
    ContainsSelf(l3);
    ContainsRight(q2, l3, l3);
    ContainsSelf(l4);
    ContainsRight(q3, l4, l4);
    ContainsSelf(l5);
    ContainsRight(q4, l5, l5);
  }
}
