/**
 * The goals page: the add-monthly-goal form with its validation, the
 * add-weekly-goal form with its generated target ids and its sub-target rows,
 * the target checkbox, and the weekly goals listed under a monthly goal.
 */
module Goals {
  import opened Wrappers
  import opened Seqs
  import opened Text
  import opened Entities
  import opened Steps

  // ------------------------------------------------------------ monthly goal

  /** The add-monthly-goal form; next steps are a list of text boxes. */
  datatype MonthlyForm = MonthlyForm(title: string, why: string, resources: string, deadline: string,
                                     outcome: string, nextSteps: seq<string>)

  const TitleRequired := "Title is required"
  const DeadlineInPast := "Deadline must be in the future"

  /** The goal the form passes on: the id is left to the store and the optional fields unset. */
  function MonthlyDraft(f: MonthlyForm): MonthlyGoal
  {
    MonthlyGoal("", f.title, f.why, f.resources, f.deadline, f.outcome, KeepNonBlank(f.nextSteps),
      None, None, None, None, None, None, None)
  }

  /**
   * `handleAddMonthlyGoal`. `deadlineBeforeNow` is the comparison
   * `new Date(deadline) < new Date()`, which is only made when a deadline is
   * filled in. Returns the error object the form shows and the goal passed on,
   * if any.
   */
  method AddMonthlyGoal(f: MonthlyForm, deadlineBeforeNow: bool) returns (errors: map<string, string>, added: Option<MonthlyGoal>)
    ensures "title" in errors <==> IsBlank(f.title)
    ensures "title" in errors ==> errors["title"] == TitleRequired
    ensures "deadline" in errors <==> f.deadline != "" && deadlineBeforeNow
    ensures "deadline" in errors ==> errors["deadline"] == DeadlineInPast
    ensures errors.Keys <= {"title", "deadline"}
    ensures added.Some? <==> errors == map[]
    ensures added.Some? ==> added.value == MonthlyDraft(f)
  {
    errors := map[];
    if IsBlank(f.title) {
      errors := errors["title" := TitleRequired];
    }
    if f.deadline != "" && deadlineBeforeNow {
      errors := errors["deadline" := DeadlineInPast];
    }
    if |errors| > 0 {
      added := None;
      return;
    }
    if !IsBlank(f.title) {
      added := Some(MonthlyDraft(f));
    } else {
      added := None;
    }
  }

  /** An accepted goal keeps its non-blank next steps, in order, and drops the blank ones. */
  lemma DraftNextSteps(f: MonthlyForm, a: seq<string>, b: seq<string>)
    requires f.nextSteps == a + b
    ensures MonthlyDraft(f).nextSteps == KeepNonBlank(a) + KeepNonBlank(b)
    ensures (forall i :: 0 <= i < |f.nextSteps| ==> NotBlank(f.nextSteps[i])) ==> MonthlyDraft(f).nextSteps == f.nextSteps
    ensures (forall i :: 0 <= i < |f.nextSteps| ==> !NotBlank(f.nextSteps[i])) ==> MonthlyDraft(f).nextSteps == []
  {
    FilterConcat(a, b, NotBlank);
    if forall i :: 0 <= i < |f.nextSteps| ==> NotBlank(f.nextSteps[i]) {
      FilterAll(f.nextSteps, NotBlank);
    }
    if forall i :: 0 <= i < |f.nextSteps| ==> !NotBlank(f.nextSteps[i]) {
      FilterNone(f.nextSteps, NotBlank);
    }
  }

  // ------------------------------------------------------------ weekly goal

  /** One sub-target row of the add-weekly-goal form. */
  datatype TargetDraft = TargetDraft(id: string, title: string, actionSteps: seq<string>)

  datatype WeeklyForm = WeeklyForm(goalTitle: string, weekNumber: int, targets: seq<TargetDraft>)

  const BlankTargetDraft := TargetDraft("", "", [""])

  /** The form as it opens and as it is reset: no title, week 1, one blank row. */
  const BlankWeeklyForm := WeeklyForm("", 1, [BlankTargetDraft])

  /** `target-${Date.now()}-${idx}`. */
  function TargetId(now: nat, idx: nat): (r: string)
    ensures var p := "target-" + NatToString(now) + "-";
      |r| > |p| && r[..|p|] == p && IsDigits(r[|p|..]) && DecimalValue(r[|p|..]) == idx
  {
    "target-" + NatToString(now) + "-" + NatToString(idx)
  }

  /** Ids drawn at the same instant differ exactly when their positions differ. */
  lemma TargetIdInjective(now: nat, i: nat, j: nat)
    requires TargetId(now, i) == TargetId(now, j)
    ensures i == j
  {
    var p := "target-" + NatToString(now) + "-";
    assert DecimalValue(TargetId(now, i)[|p|..]) == i && DecimalValue(TargetId(now, j)[|p|..]) == j;
  }

  /**
   * `handleAddWeeklyGoal`: with a monthly goal selected and a non-blank title,
   * every row becomes a target (a blank-titled one too) with a generated id,
   * keeping its non-blank action steps; otherwise nothing is passed on.
   */
  function AddWeeklyGoal(selectedMonthlyGoalId: Option<string>, f: WeeklyForm, now: nat): (r: Option<WeeklyGoal>)
    ensures r.Some? <==> selectedMonthlyGoalId.Some? && selectedMonthlyGoalId.value != "" && !IsBlank(f.goalTitle)
    ensures r.Some? ==>
      && r.value.monthlyGoalId == selectedMonthlyGoalId.value && r.value.goalTitle == f.goalTitle
      && r.value.weekNumber == Some(f.weekNumber) && |r.value.targets| == |f.targets|
      && forall i :: 0 <= i < |f.targets| ==>
           && r.value.targets[i].id == TargetId(now, i) && r.value.targets[i].title == f.targets[i].title
           && r.value.targets[i].actionSteps == KeepNonBlank(f.targets[i].actionSteps)
           && r.value.targets[i].completed == None
  {
    if selectedMonthlyGoalId.Some? && selectedMonthlyGoalId.value != "" && !IsBlank(f.goalTitle) then
      Some(WeeklyGoal("", selectedMonthlyGoalId.value, f.goalTitle,
        seq(|f.targets|, i requires 0 <= i < |f.targets| =>
          Target(TargetId(now, i), f.targets[i].title, KeepNonBlank(f.targets[i].actionSteps), None)),
        Some(f.weekNumber)))
    else None
  }

  /** The generated target ids of one goal are pairwise distinct. */
  lemma AddedTargetIdsDistinct(selectedMonthlyGoalId: Option<string>, f: WeeklyForm, now: nat)
    requires AddWeeklyGoal(selectedMonthlyGoalId, f, now).Some?
    ensures var ts := AddWeeklyGoal(selectedMonthlyGoalId, f, now).value.targets;
      forall i, j :: 0 <= i < j < |ts| ==> ts[i].id != ts[j].id
  {
    var ts := AddWeeklyGoal(selectedMonthlyGoalId, f, now).value.targets;
    forall i, j | 0 <= i < j < |ts| ensures ts[i].id != ts[j].id {
      assert ts[i].id == TargetId(now, i) && ts[j].id == TargetId(now, j);
    }
  }

  /** Remove the sub-target row at `idx`: `targets.filter((_, i) => i !== idx)`. */
  function RemoveRow(rows: seq<TargetDraft>, idx: nat): (r: seq<TargetDraft>)
    requires idx < |rows|
    ensures |r| == |rows| - 1
    ensures forall i :: 0 <= i < idx ==> r[i] == rows[i]
    ensures forall i :: idx <= i < |r| ==> r[i] == rows[i + 1]
  {
    rows[..idx] + rows[idx + 1..]
  }

  /** Add a blank sub-target row at the end. */
  function AddRow(rows: seq<TargetDraft>): (r: seq<TargetDraft>)
    ensures |r| == |rows| + 1 && r[..|rows|] == rows && r[|rows|] == BlankTargetDraft
  {
    rows + [BlankTargetDraft]
  }

  /** Removing the row just added gives back the rows; removal keeps at least one row when it is offered. */
  lemma RowsRoundTrip(rows: seq<TargetDraft>, idx: nat)
    ensures RemoveRow(AddRow(rows), |rows|) == rows
    ensures idx < |rows| && |rows| > 1 ==> |RemoveRow(rows, idx)| >= 1
  {
    assert AddRow(rows)[..|rows|] == rows;
  }

  // ------------------------------------------------------------ target checkbox

  /** Ticking a target's checkbox: `{ ...weeklyGoal, targets: targets.map(...) }`. */
  function SetTargetCompleted(w: WeeklyGoal, targetId: string, checked: bool): (r: WeeklyGoal)
    ensures r.id == w.id && r.monthlyGoalId == w.monthlyGoalId && r.goalTitle == w.goalTitle
    ensures r.weekNumber == w.weekNumber && |r.targets| == |w.targets|
    ensures forall i :: 0 <= i < |w.targets| ==>
      if w.targets[i].id == targetId then r.targets[i] == w.targets[i].(completed := Some(checked))
      else r.targets[i] == w.targets[i]
  {
    w.(targets := seq(|w.targets|, i requires 0 <= i < |w.targets| =>
      if w.targets[i].id == targetId then w.targets[i].(completed := Some(checked)) else w.targets[i]))
  }

  /** An id no target has leaves the goal as it was; ticking twice is ticking once. */
  lemma TargetCheckboxLaws(w: WeeklyGoal, targetId: string, checked: bool)
    ensures (forall i :: 0 <= i < |w.targets| ==> w.targets[i].id != targetId) ==> SetTargetCompleted(w, targetId, checked) == w
    ensures SetTargetCompleted(SetTargetCompleted(w, targetId, checked), targetId, checked) == SetTargetCompleted(w, targetId, checked)
  {
    var r := SetTargetCompleted(w, targetId, checked);
    if forall i :: 0 <= i < |w.targets| ==> w.targets[i].id != targetId {
      assert r.targets == w.targets;
    }
    assert SetTargetCompleted(r, targetId, checked).targets == r.targets;
  }

  // ------------------------------------------------------------ weekly goals of a monthly goal

  /** `getWeeklyGoalsForMonthly`: exactly the weekly goals linked to the monthly goal, in order. */
  function WeeklyGoalsForMonthly(weekly: seq<WeeklyGoal>, monthlyGoalId: string): (r: seq<WeeklyGoal>)
    ensures forall i :: 0 <= i < |r| ==> r[i] in weekly && r[i].monthlyGoalId == monthlyGoalId
    ensures forall i :: 0 <= i < |weekly| && weekly[i].monthlyGoalId == monthlyGoalId ==> weekly[i] in r
  {
    var linked := (w: WeeklyGoal) => w.monthlyGoalId == monthlyGoalId;
    FilterMembers(weekly, linked);
    Filter(weekly, linked)
  }

  /** The listing keeps order: listing two runs of goals is listing each run. */
  lemma WeeklyGoalsForMonthlyConcat(a: seq<WeeklyGoal>, b: seq<WeeklyGoal>, monthlyGoalId: string)
    ensures WeeklyGoalsForMonthly(a + b, monthlyGoalId) == WeeklyGoalsForMonthly(a, monthlyGoalId) + WeeklyGoalsForMonthly(b, monthlyGoalId)
  {
    FilterConcat(a, b, (w: WeeklyGoal) => w.monthlyGoalId == monthlyGoalId);
  }
}
