/**
 * The monthly dashboard: goal status counts and labels, the add-goal form,
 * the completion checkbox, and the month calendar that lists goals on their
 * deadline day. Monthly progress is `Progress.MonthlyGoalProgress`.
 */
module MonthlyDashboard {
  import opened Wrappers
  import opened Seqs
  import opened Text
  import opened Entities
  import opened Steps

  // ------------------------------------------------------------ status

  /** `goal.status || 'in-progress'`: a goal without a status is in progress. */
  function EffectiveStatus(g: MonthlyGoal): (s: GoalStatus)
    ensures g.status == None ==> s == GoalInProgress
    ensures g.status.Some? ==> s == g.status.value
  {
    g.status.GetOr(GoalInProgress)
  }

  predicate CountsAsInProgress(g: MonthlyGoal)
  {
    EffectiveStatus(g) == GoalInProgress
  }

  predicate IsOnTrack(g: MonthlyGoal)
  {
    g.status == Some(OnTrack)
  }

  predicate IsAtRisk(g: MonthlyGoal)
  {
    g.status == Some(AtRisk)
  }

  datatype StatusCounts = StatusCounts(inProgress: nat, onTrack: nat, atRisk: nat)

  /** `statusCounts`. */
  function CountStatuses(goals: seq<MonthlyGoal>): (r: StatusCounts)
    ensures r.inProgress == Count(goals, CountsAsInProgress)
    ensures r.onTrack == Count(goals, IsOnTrack)
    ensures r.atRisk == Count(goals, IsAtRisk)
    ensures r.inProgress + r.onTrack + r.atRisk == |goals|
  {
    StatusCountsAddUp(goals);
    StatusCounts(Count(goals, CountsAsInProgress), Count(goals, IsOnTrack), Count(goals, IsAtRisk))
  }

  /** Every goal is counted exactly once, a missing status as in progress. */
  lemma {:induction false} StatusCountsAddUp(goals: seq<MonthlyGoal>)
    ensures Count(goals, CountsAsInProgress) + Count(goals, IsOnTrack) + Count(goals, IsAtRisk) == |goals|
  {
    if goals != [] {
      StatusCountsAddUp(goals[1..]);
      assert goals == [goals[0]] + goals[1..];
    }
  }

  /** Goals without a status are all counted as in progress. */
  lemma UnsetStatusesCountInProgress(goals: seq<MonthlyGoal>)
    requires forall i :: 0 <= i < |goals| ==> goals[i].status == None
    ensures CountStatuses(goals) == StatusCounts(|goals|, 0, 0)
  {
    FilterAll(goals, CountsAsInProgress);
    FilterNone(goals, IsOnTrack);
    FilterNone(goals, IsAtRisk);
  }

  /** `getStatusLabel`. */
  function StatusLabel(s: GoalStatus): string
  {
    match s
    case OnTrack => "On Track"
    case AtRisk => "At Risk"
    case _ => "In Progress"
  }

  /** `getStatusColor`. */
  function StatusColor(s: GoalStatus): string
  {
    match s
    case OnTrack => "bg-green-500"
    case AtRisk => "bg-red-500"
    case _ => "bg-yellow-500"
  }

  /** `getStatusTextColor`. */
  function StatusTextColor(s: GoalStatus): string
  {
    match s
    case OnTrack => "text-green-600"
    case AtRisk => "text-red-600"
    case _ => "text-yellow-600"
  }

  /**
   * The three statuses are told apart by label, dot and text colour, and a goal
   * with no status is shown with the in-progress label and colours.
   */
  lemma StatusDisplay(a: GoalStatus, b: GoalStatus, g: MonthlyGoal)
    ensures StatusLabel(a) == StatusLabel(b) ==> a == b
    ensures StatusColor(a) == StatusColor(b) ==> a == b
    ensures StatusTextColor(a) == StatusTextColor(b) ==> a == b
    ensures g.status == None ==>
      && StatusLabel(EffectiveStatus(g)) == "In Progress"
      && StatusColor(EffectiveStatus(g)) == "bg-yellow-500"
      && StatusTextColor(EffectiveStatus(g)) == "text-yellow-600"
  {
    assert "On Track"[0] != "At Risk"[0] && "On Track"[0] != "In Progress"[0] && "At Risk"[0] != "In Progress"[0];
    assert "bg-green-500"[3] != "bg-red-500"[3] && "bg-green-500"[3] != "bg-yellow-500"[3] && "bg-red-500"[3] != "bg-yellow-500"[3];
    assert "text-green-600"[5] != "text-red-600"[5] && "text-green-600"[5] != "text-yellow-600"[5]
      && "text-red-600"[5] != "text-yellow-600"[5];
  }

  // ------------------------------------------------------------ add-goal form

  /** The add-goal form; next steps are one text, a step per line. */
  datatype GoalForm = GoalForm(
    title: string,
    why: string,
    resources: string,
    deadline: string,
    outcome: string,
    nextSteps: string,
    status: GoalStatus,
    project: string,
    kpi: string,
    teamLeader: string,
    notes: string,
    risk: string)

  /** The form as it opens and as it is reset after a submission. */
  const BlankGoalForm := GoalForm("", "", "", "", "", "", GoalInProgress, "", "", "", "", "")

  /**
   * `handleSubmit`: a goal is passed on only with a title and a deadline (not
   * trimmed). Every form field is carried over, next steps as their non-blank
   * lines; the id is left empty for the store to assign and `completed` unset.
   */
  function SubmitMonthlyGoal(f: GoalForm): (r: Option<MonthlyGoal>)
    ensures r.Some? <==> f.title != "" && f.deadline != ""
    ensures r.Some? ==>
      && r.value.title == f.title && r.value.why == f.why && r.value.resources == f.resources
      && r.value.deadline == f.deadline && r.value.outcome == f.outcome
      && r.value.nextSteps == ParseSteps(f.nextSteps)
      && r.value.status == Some(f.status) && r.value.project == Some(f.project)
      && r.value.kpi == Some(f.kpi) && r.value.teamLeader == Some(f.teamLeader)
      && r.value.notes == Some(f.notes) && r.value.risk == Some(f.risk)
      && r.value.completed == None
  {
    if f.title != "" && f.deadline != "" then
      Some(MonthlyGoal("", f.title, f.why, f.resources, f.deadline, f.outcome, ParseSteps(f.nextSteps),
        Some(f.status), Some(f.project), Some(f.kpi), Some(f.teamLeader), Some(f.notes), Some(f.risk), None))
    else None
  }

  /** The blank form is never submitted. */
  lemma BlankFormRejected()
    ensures SubmitMonthlyGoal(BlankGoalForm) == None
  {
  }

  /** Next steps typed one per line, none blank, are stored exactly. */
  lemma SubmittedStepsRoundTrip(f: GoalForm, steps: seq<string>)
    requires f.title != "" && f.deadline != ""
    requires forall i :: 0 <= i < |steps| ==> CleanStep(steps[i])
    requires f.nextSteps == Join(steps, "\n")
    ensures SubmitMonthlyGoal(f).Some? && SubmitMonthlyGoal(f).value.nextSteps == steps
  {
    StepsRoundTrip(steps);
  }

  // ------------------------------------------------------------ completion

  /** `toggleGoalCompletion`: the update object `{ completed: !currentCompleted }`. */
  function CompletionPatch(currentCompleted: Option<bool>): (p: MonthlyGoalPatch)
    ensures p.completed == Some(!Truthy(currentCompleted))
  {
    NoMonthlyGoalChange.(completed := Some(!Truthy(currentCompleted)))
  }

  /**
   * Applying the patch flips how the checkbox reads (a missing flag counts as
   * unchecked), changes no other field, and flipping twice restores the reading.
   */
  lemma CompletionToggle(g: MonthlyGoal)
    ensures var g' := MergeMonthlyGoal(g, CompletionPatch(g.completed));
      && Truthy(g'.completed) == !Truthy(g.completed)
      && g' == g.(completed := Some(!Truthy(g.completed)))
    ensures var g' := MergeMonthlyGoal(g, CompletionPatch(g.completed));
      Truthy(MergeMonthlyGoal(g', CompletionPatch(g'.completed)).completed) == Truthy(g.completed)
  {
  }

  // ------------------------------------------------------------ calendar

  predicate IsLeapYear(year: int)
  {
    (year % 4 == 0 && year % 100 != 0) || year % 400 == 0
  }

  /** `new Date(year, month + 1, 0).getDate()` for a 0-based month. */
  function DaysInMonth(year: int, month: nat): (r: nat)
    requires month < 12
    ensures 28 <= r <= 31
    ensures month == 1 ==> (r == 29 <==> IsLeapYear(year))
    ensures month != 1 ==> (r == 30 <==> month in {3, 5, 8, 10})
  {
    if month == 1 then (if IsLeapYear(year) then 29 else 28)
    else if month in {3, 5, 8, 10} then 30
    else 31
  }

  /** The twelve months add up to the length of the Gregorian year. */
  lemma YearLength(year: int)
    ensures DaysInMonth(year, 0) + DaysInMonth(year, 1) + DaysInMonth(year, 2) + DaysInMonth(year, 3)
      + DaysInMonth(year, 4) + DaysInMonth(year, 5) + DaysInMonth(year, 6) + DaysInMonth(year, 7)
      + DaysInMonth(year, 8) + DaysInMonth(year, 9) + DaysInMonth(year, 10) + DaysInMonth(year, 11)
      == if IsLeapYear(year) then 366 else 365
  {
  }

  /**
   * The calendar grid: `firstDayOfMonth` empty cells (the weekday of the 1st,
   * Sunday first), then the day numbers 1 to `daysInMonth`.
   */
  method CalendarDays(firstDayOfMonth: nat, daysInMonth: nat) returns (days: seq<Option<nat>>)
    ensures |days| == firstDayOfMonth + daysInMonth
    ensures forall i :: 0 <= i < firstDayOfMonth ==> days[i] == None
    ensures forall d :: 1 <= d <= daysInMonth ==> days[firstDayOfMonth + d - 1] == Some(d)
  {
    days := [];
    var i := 0;
    while i < firstDayOfMonth
      invariant 0 <= i <= firstDayOfMonth
      invariant |days| == i
      invariant forall k :: 0 <= k < i ==> days[k] == None
    {
      days := days + [None];
      i := i + 1;
    }
    i := 1;
    while i <= daysInMonth
      invariant 1 <= i <= daysInMonth + 1
      invariant |days| == firstDayOfMonth + i - 1
      invariant forall k :: 0 <= k < firstDayOfMonth ==> days[k] == None
      invariant forall d :: 1 <= d < i ==> days[firstDayOfMonth + d - 1] == Some(d)
    {
      days := days + [Some(i)];
      i := i + 1;
    }
  }

  /** The deadline text of a day: `${year}-${pad2(month + 1)}-${pad2(day)}`, with a 0-based month. */
  function DateKey(year: nat, month: nat, day: nat): (r: string)
    ensures |r| >= 7
    ensures month < 12 && day < 100 ==>
      r == NatToString(year) + "-" + [Digit((month + 1) / 10), Digit((month + 1) % 10)] + "-" + [Digit(day / 10), Digit(day % 10)]
  {
    if month < 12 && day < 100 then
      TwoDigits(month + 1);
      TwoDigits(day);
      NatToString(year) + "-" + PadStart2(NatToString(month + 1)) + "-" + PadStart2(NatToString(day))
    else
      NatToString(year) + "-" + PadStart2(NatToString(month + 1)) + "-" + PadStart2(NatToString(day))
  }

  /** Different days of the calendar have different keys. */
  lemma DateKeyInjective(y: nat, m: nat, d: nat, y': nat, m': nat, d': nat)
    requires m < 12 && m' < 12 && d < 100 && d' < 100
    requires DateKey(y, m, d) == DateKey(y', m', d')
    ensures y == y' && m == m' && d == d'
  {
    var mm, dd := [Digit((m + 1) / 10), Digit((m + 1) % 10)], [Digit(d / 10), Digit(d % 10)];
    var mm', dd' := [Digit((m' + 1) / 10), Digit((m' + 1) % 10)], [Digit(d' / 10), Digit(d' % 10)];
    KeySplit(NatToString(y), mm, dd);
    KeySplit(NatToString(y'), mm', dd');
    DigitRunUnique(NatToString(y), mm + "-" + dd, NatToString(y'), mm' + "-" + dd', '-');
    NatToStringInjective(y, y');
    PairUnique(mm, dd, mm', dd');
    TwoDigitsInjective(m + 1, m' + 1);
    TwoDigitsInjective(d, d');
  }

  lemma KeySplit(ys: string, mm: string, dd: string)
    ensures ys + "-" + mm + "-" + dd == ys + ['-'] + (mm + "-" + dd)
  {
  }

  lemma PairUnique(mm: string, dd: string, mm': string, dd': string)
    requires |mm| == 2 && |mm'| == 2
    requires mm + "-" + dd == mm' + "-" + dd'
    ensures mm == mm' && dd == dd'
  {
    var t := mm + "-" + dd;
    assert mm == t[..2] && mm' == t[..2];
    assert dd == t[3..] && dd' == t[3..];
  }

  /** `getGoalsForDate`: the goals whose deadline is that day, in order. */
  function GoalsForDate(goals: seq<MonthlyGoal>, year: nat, month: nat, day: nat): (r: seq<MonthlyGoal>)
    ensures forall i :: 0 <= i < |r| ==> r[i] in goals && r[i].deadline == DateKey(year, month, day)
    ensures forall i :: 0 <= i < |goals| && goals[i].deadline == DateKey(year, month, day) ==> goals[i] in r
  {
    var onDay := (g: MonthlyGoal) => g.deadline == DateKey(year, month, day);
    FilterMembers(goals, onDay);
    Filter(goals, onDay)
  }

  /** The listing keeps the goals' order: the goals of a concatenation are those of its parts in turn. */
  lemma GoalsForDateConcat(a: seq<MonthlyGoal>, b: seq<MonthlyGoal>, year: nat, month: nat, day: nat)
    ensures GoalsForDate(a + b, year, month, day) == GoalsForDate(a, year, month, day) + GoalsForDate(b, year, month, day)
  {
    FilterConcat(a, b, (g: MonthlyGoal) => g.deadline == DateKey(year, month, day));
  }

  /** A goal is listed on at most one day of a month. */
  lemma GoalOnOneDay(goals: seq<MonthlyGoal>, g: MonthlyGoal, year: nat, month: nat, d: nat, d': nat)
    requires month < 12 && d < 100 && d' < 100
    requires g in GoalsForDate(goals, year, month, d) && g in GoalsForDate(goals, year, month, d')
    ensures d == d'
  {
    DateKeyInjective(year, month, d, year, month, d');
  }
}
