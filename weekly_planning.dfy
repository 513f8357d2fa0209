/**
 * The weekly planning board: building a new weekly goal from the form, the
 * expand dialog that edits a goal's targets as text. The progress figures and
 * the "complete" mark of a target card live in `Progress`.
 */
module WeeklyPlanning {
  import opened Wrappers
  import opened Seqs
  import opened Text
  import opened Entities
  import opened Steps

  // ------------------------------------------------------------ new weekly goal

  /** One target row of the form: a title and the action steps, one per line. */
  datatype TargetRow = TargetRow(title: string, actionSteps: string)

  predicate HasTitle(row: TargetRow)
  {
    !IsBlank(row.title)
  }

  /**
   * The targets of a new goal: the rows whose title is not blank, in order;
   * `ids` are the random ids drawn for them, one per kept row.
   */
  function BuildTargets(rows: seq<TargetRow>, ids: seq<string>): (r: seq<Target>)
    requires |ids| == |Filter(rows, HasTitle)|
    ensures |r| == |ids|
    ensures forall i :: 0 <= i < |r| ==>
      r[i].id == ids[i] && r[i].title == Filter(rows, HasTitle)[i].title && !IsBlank(r[i].title)
      && r[i].actionSteps == ParseSteps(Filter(rows, HasTitle)[i].actionSteps) && r[i].completed == None
  {
    var kept := Filter(rows, HasTitle);
    seq(|kept|, i requires 0 <= i < |kept| => Target(ids[i], kept[i].title, ParseSteps(kept[i].actionSteps), None))
  }

  /** Rows that all have a title are all kept, in order. */
  lemma BuildTargetsAllTitled(rows: seq<TargetRow>, ids: seq<string>)
    requires forall i :: 0 <= i < |rows| ==> HasTitle(rows[i])
    requires |ids| == |rows|
    ensures Filter(rows, HasTitle) == rows
    ensures |BuildTargets(rows, ids)| == |rows|
    ensures forall i :: 0 <= i < |rows| ==> BuildTargets(rows, ids)[i].title == rows[i].title
  {
    FilterAll(rows, HasTitle);
  }

  /** Rows that all have a blank title give a goal without targets. */
  lemma BuildTargetsAllBlank(rows: seq<TargetRow>)
    requires forall i :: 0 <= i < |rows| ==> !HasTitle(rows[i])
    ensures Filter(rows, HasTitle) == []
    ensures BuildTargets(rows, []) == []
  {
    FilterNone(rows, HasTitle);
  }

  /**
   * `handleSubmit`: a goal is created only when a monthly goal is selected and
   * the title is not empty (the title is not trimmed here). The draft's id is
   * left empty for the store to assign.
   */
  function SubmitWeeklyGoal(selectedMonthlyGoal: string, goalTitle: string, rows: seq<TargetRow>, ids: seq<string>)
    : (r: Option<WeeklyGoal>)
    requires |ids| == |Filter(rows, HasTitle)|
    ensures r.Some? <==> selectedMonthlyGoal != "" && goalTitle != ""
    ensures r.Some? ==>
      && r.value.monthlyGoalId == selectedMonthlyGoal && r.value.goalTitle == goalTitle
      && r.value.targets == BuildTargets(rows, ids) && r.value.weekNumber == None
  {
    if selectedMonthlyGoal != "" && goalTitle != "" then
      Some(WeeklyGoal("", selectedMonthlyGoal, goalTitle, BuildTargets(rows, ids), None))
    else None
  }

  // ------------------------------------------------------------ expand dialog

  /** A target being edited: its steps are one text, a step per line. */
  datatype EditingTarget = EditingTarget(id: string, title: string, actionSteps: string)

  /** The expand dialog: the goal it opened on, and the edited title and targets. */
  datatype ExpandDialog = ExpandDialog(goal: WeeklyGoal, goalTitle: string, targets: seq<EditingTarget>)

  /** `handleExpand`: the dialog opens on the goal; steps are joined with newlines. */
  function Expand(g: WeeklyGoal): (d: ExpandDialog)
    ensures d.goal == g && d.goalTitle == g.goalTitle && |d.targets| == |g.targets|
    ensures forall i :: 0 <= i < |g.targets| ==>
      d.targets[i].id == g.targets[i].id && d.targets[i].title == g.targets[i].title
      && d.targets[i].actionSteps == Join(g.targets[i].actionSteps, "\n")
  {
    ExpandDialog(g, g.goalTitle,
      seq(|g.targets|, i requires 0 <= i < |g.targets| =>
        EditingTarget(g.targets[i].id, g.targets[i].title, Join(g.targets[i].actionSteps, "\n"))))
  }

  /** `handleSaveExpanded`: the goal with the edited title and rebuilt targets; `completed` is not carried over. */
  function SaveExpanded(d: ExpandDialog): (g: WeeklyGoal)
    ensures g.id == d.goal.id && g.monthlyGoalId == d.goal.monthlyGoalId && g.weekNumber == d.goal.weekNumber
    ensures g.goalTitle == d.goalTitle && |g.targets| == |d.targets|
    ensures forall i :: 0 <= i < |g.targets| ==>
      g.targets[i].id == d.targets[i].id && g.targets[i].title == d.targets[i].title
      && g.targets[i].completed == None
      && forall j :: 0 <= j < |g.targets[i].actionSteps| ==> CleanStep(g.targets[i].actionSteps[j])
  {
    d.goal.(goalTitle := d.goalTitle,
            targets := seq(|d.targets|, i requires 0 <= i < |d.targets| =>
              Target(d.targets[i].id, d.targets[i].title, ParseSteps(d.targets[i].actionSteps), None)))
  }

  /** Every step of every target can be shown in the text area and read back. */
  predicate CleanTargets(g: WeeklyGoal)
  {
    forall i, j :: 0 <= i < |g.targets| && 0 <= j < |g.targets[i].actionSteps| ==> CleanStep(g.targets[i].actionSteps[j])
  }

  /**
   * Opening the dialog and saving without edits gives back the goal, except
   * that every target's `completed` mark is dropped.
   */
  lemma ExpandSaveRoundTrip(g: WeeklyGoal)
    requires CleanTargets(g)
    ensures var g' := SaveExpanded(Expand(g));
      g'.id == g.id && g'.monthlyGoalId == g.monthlyGoalId && g'.goalTitle == g.goalTitle
      && g'.weekNumber == g.weekNumber && |g'.targets| == |g.targets|
      && forall i :: 0 <= i < |g.targets| ==> g'.targets[i] == g.targets[i].(completed := None)
  {
    var g' := SaveExpanded(Expand(g));
    forall i | 0 <= i < |g.targets| ensures g'.targets[i] == g.targets[i].(completed := None) {
      StepsRoundTrip(g.targets[i].actionSteps);
    }
  }

  /** A goal with no completion marks survives the round trip unchanged. */
  lemma ExpandSaveUnmarked(g: WeeklyGoal)
    requires CleanTargets(g)
    requires forall i :: 0 <= i < |g.targets| ==> g.targets[i].completed == None
    ensures SaveExpanded(Expand(g)) == g
  {
    ExpandSaveRoundTrip(g);
    var g' := SaveExpanded(Expand(g));
    assert g'.targets == g.targets;
  }
}
