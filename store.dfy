/**
 * The application's state: the monthly goals, weekly goals and daily tasks held
 * by the root component, the handlers every page calls to change them, the
 * templates that seed an empty store and the load rule that restores a saved one.
 */
module Store {
  import opened Wrappers
  import opened Seqs
  import opened Entities

  // ---------------------------------------------------------------- identity

  function MonthlyIds(gs: seq<MonthlyGoal>): (r: seq<string>)
    ensures |r| == |gs| && forall i :: 0 <= i < |gs| ==> r[i] == gs[i].id
  {
    seq(|gs|, i requires 0 <= i < |gs| => gs[i].id)
  }

  function WeeklyIds(ws: seq<WeeklyGoal>): (r: seq<string>)
    ensures |r| == |ws| && forall i :: 0 <= i < |ws| ==> r[i] == ws[i].id
  {
    seq(|ws|, i requires 0 <= i < |ws| => ws[i].id)
  }

  function TaskIds(ts: seq<DailyTask>): (r: seq<string>)
    ensures |r| == |ts| && forall i :: 0 <= i < |ts| ==> r[i] == ts[i].id
  {
    seq(|ts|, i requires 0 <= i < |ts| => ts[i].id)
  }

  predicate Distinct(ids: seq<string>)
  {
    forall i, j :: 0 <= i < j < |ids| ==> ids[i] != ids[j]
  }

  /** At most one task is being timed. */
  predicate AtMostOneActive(ts: seq<DailyTask>)
  {
    forall i, j :: 0 <= i < |ts| && 0 <= j < |ts| && ts[i].isActive && ts[j].isActive ==> i == j
  }

  /** Appending an element whose id is new keeps the ids distinct. */
  lemma AppendFresh(ids: seq<string>, id: string)
    requires Distinct(ids) && id !in ids
    ensures Distinct(ids + [id])
  {
  }

  // ------------------------------------------------------------ monthly goals

  /** `{ ...goal, id }` for a goal drafted without an id. */
  function WithMonthlyId(draft: MonthlyGoal, id: string): (g: MonthlyGoal)
    ensures g.id == id && g.(id := draft.id) == draft
  {
    draft.(id := id)
  }

  /** `handleUpdateMonthlyGoal`: the goals with the given id get the patch merged in. */
  function UpdateMonthlyGoals(gs: seq<MonthlyGoal>, id: string, patch: MonthlyGoalPatch): (r: seq<MonthlyGoal>)
    ensures |r| == |gs|
    ensures forall i :: 0 <= i < |gs| ==>
      r[i] == (if gs[i].id == id then MergeMonthlyGoal(gs[i], patch) else gs[i])
  {
    seq(|gs|, i requires 0 <= i < |gs| => if gs[i].id == id then MergeMonthlyGoal(gs[i], patch) else gs[i])
  }

  /** An update that sets no id, or the goal's own id (a whole edited goal), keeps every goal's id. */
  lemma UpdateMonthlyKeepsIds(gs: seq<MonthlyGoal>, id: string, patch: MonthlyGoalPatch)
    requires patch.id == None || patch.id == Some(id)
    ensures MonthlyIds(UpdateMonthlyGoals(gs, id, patch)) == MonthlyIds(gs)
  {
  }

  /** `handleDeleteMonthlyGoal`. */
  function RemoveMonthlyGoal(gs: seq<MonthlyGoal>, id: string): seq<MonthlyGoal>
  {
    Filter(gs, (g: MonthlyGoal) => g.id != id)
  }

  /** Deleting removes every goal with the id and keeps every other goal. */
  lemma RemoveMonthlyGoalExact(gs: seq<MonthlyGoal>, id: string)
    ensures forall i :: 0 <= i < |RemoveMonthlyGoal(gs, id)| ==> RemoveMonthlyGoal(gs, id)[i].id != id
    ensures forall i :: 0 <= i < |gs| && gs[i].id != id ==> gs[i] in RemoveMonthlyGoal(gs, id)
    ensures forall i :: 0 <= i < |RemoveMonthlyGoal(gs, id)| ==> RemoveMonthlyGoal(gs, id)[i] in gs
    ensures (forall i :: 0 <= i < |gs| ==> gs[i].id != id) ==> RemoveMonthlyGoal(gs, id) == gs
  {
    var keep := (g: MonthlyGoal) => g.id != id;
    FilterMembers(gs, keep);
    if forall i :: 0 <= i < |gs| ==> gs[i].id != id {
      FilterAll(gs, keep);
    }
  }

  // ------------------------------------------------------------- weekly goals

  function WithWeeklyId(draft: WeeklyGoal, id: string): (w: WeeklyGoal)
    ensures w.id == id && w.(id := draft.id) == draft
  {
    draft.(id := id)
  }

  /** `handleUpdateWeeklyGoal`: every goal with the updated goal's id is replaced by it. */
  function ReplaceWeeklyGoal(ws: seq<WeeklyGoal>, updated: WeeklyGoal): (r: seq<WeeklyGoal>)
    ensures |r| == |ws|
    ensures forall i :: 0 <= i < |ws| ==> r[i] == (if ws[i].id == updated.id then updated else ws[i])
  {
    seq(|ws|, i requires 0 <= i < |ws| => if ws[i].id == updated.id then updated else ws[i])
  }

  /** Replacing keeps the ids, so distinct ids stay distinct. */
  lemma ReplaceWeeklyKeepsIds(ws: seq<WeeklyGoal>, updated: WeeklyGoal)
    ensures WeeklyIds(ReplaceWeeklyGoal(ws, updated)) == WeeklyIds(ws)
  {
  }

  /** The goal after `handleResetWeeklyGoal`: title and every target's title and steps cleared. */
  function ResetGoal(w: WeeklyGoal): WeeklyGoal
  {
    w.(goalTitle := "", targets := seq(|w.targets|, i requires 0 <= i < |w.targets| =>
      w.targets[i].(title := "", actionSteps := [])))
  }

  function ResetWeeklyGoal(ws: seq<WeeklyGoal>, id: string): (r: seq<WeeklyGoal>)
    ensures |r| == |ws|
    ensures forall i :: 0 <= i < |ws| ==> r[i] == (if ws[i].id == id then ResetGoal(ws[i]) else ws[i])
  {
    seq(|ws|, i requires 0 <= i < |ws| => if ws[i].id == id then ResetGoal(ws[i]) else ws[i])
  }

  /**
   * A reset goal keeps its id, its monthly goal, its week number and its targets'
   * ids and completion marks, so tasks linked to it stay linked; resetting twice
   * is resetting once.
   */
  lemma ResetGoalKeepsStructure(w: WeeklyGoal)
    ensures var r := ResetGoal(w);
      && r.id == w.id && r.monthlyGoalId == w.monthlyGoalId && r.weekNumber == w.weekNumber
      && r.goalTitle == "" && |r.targets| == |w.targets|
      && (forall i :: 0 <= i < |w.targets| ==>
            r.targets[i] == Target(w.targets[i].id, "", [], w.targets[i].completed))
      && ResetGoal(r) == r
  {
  }

  /** `handleDeleteWeeklyGoal`. */
  function RemoveWeeklyGoal(ws: seq<WeeklyGoal>, id: string): seq<WeeklyGoal>
  {
    Filter(ws, (w: WeeklyGoal) => w.id != id)
  }

  lemma RemoveWeeklyGoalExact(ws: seq<WeeklyGoal>, id: string)
    ensures forall i :: 0 <= i < |RemoveWeeklyGoal(ws, id)| ==> RemoveWeeklyGoal(ws, id)[i].id != id
    ensures forall i :: 0 <= i < |ws| && ws[i].id != id ==> ws[i] in RemoveWeeklyGoal(ws, id)
    ensures forall i :: 0 <= i < |RemoveWeeklyGoal(ws, id)| ==> RemoveWeeklyGoal(ws, id)[i] in ws
    ensures (forall i :: 0 <= i < |ws| ==> ws[i].id != id) ==> RemoveWeeklyGoal(ws, id) == ws
  {
    var keep := (w: WeeklyGoal) => w.id != id;
    FilterMembers(ws, keep);
    if forall i :: 0 <= i < |ws| ==> ws[i].id != id {
      FilterAll(ws, keep);
    }
  }

  // -------------------------------------------------------------- daily tasks

  /** `handleAddTask`: the draft gets its id, no time spent and is not being timed. */
  function NewTask(draft: DailyTask, id: string): (t: DailyTask)
    ensures t.id == id && t.timeSpent == 0 && !t.isActive
    ensures t.(id := draft.id, timeSpent := draft.timeSpent, isActive := draft.isActive) == draft
  {
    draft.(id := id, timeSpent := 0, isActive := false)
  }

  /** `handleUpdateTask`. */
  function UpdateTasks(ts: seq<DailyTask>, id: string, patch: TaskPatch): (r: seq<DailyTask>)
    ensures |r| == |ts|
    ensures forall i :: 0 <= i < |ts| ==> r[i] == (if ts[i].id == id then MergeTask(ts[i], patch) else ts[i])
  {
    seq(|ts|, i requires 0 <= i < |ts| => if ts[i].id == id then MergeTask(ts[i], patch) else ts[i])
  }

  /**
   * An update that sets no id (or the task's own) and does not start a timer
   * keeps a consistent store consistent: the ids stay, and a task runs
   * afterwards only if it ran before.
   */
  lemma UpdateTasksKeepsConsistent(gs: seq<MonthlyGoal>, ws: seq<WeeklyGoal>, ts: seq<DailyTask>,
                                   id: string, patch: TaskPatch)
    requires Consistent(gs, ws, ts)
    requires (patch.id == None || patch.id == Some(id)) && patch.isActive != Some(true)
    ensures Consistent(gs, ws, UpdateTasks(ts, id, patch))
  {
    var r := UpdateTasks(ts, id, patch);
    assert TaskIds(r) == TaskIds(ts);
    assert forall i :: 0 <= i < |r| && r[i].isActive ==> ts[i].isActive;
  }

  /** `handleDeleteTask`. */
  function RemoveTask(ts: seq<DailyTask>, id: string): seq<DailyTask>
  {
    Filter(ts, (t: DailyTask) => t.id != id)
  }

  /** Deleting an existing task from a store with distinct ids removes exactly that one. */
  lemma {:induction false} RemoveExistingTask(ts: seq<DailyTask>, id: string, k: nat)
    requires Distinct(TaskIds(ts)) && k < |ts| && ts[k].id == id
    ensures RemoveTask(ts, id) == ts[..k] + ts[k + 1..]
  {
    var keep := (t: DailyTask) => t.id != id;
    var ids, before, after := TaskIds(ts), ts[..k], ts[k + 1..];
    forall i | 0 <= i < |before| ensures keep(before[i]) {
      assert ids[i] != ids[k];
    }
    forall i | 0 <= i < |after| ensures keep(after[i]) {
      assert ids[k] != ids[k + 1 + i];
    }
    assert ts == before + [ts[k]] + after;
    FilterDropOne(before, ts[k], after, keep);
  }

  /** `handleToggleTask` on one task: Done goes back to To Do; anything else becomes Done and stops timing. */
  function Toggled(t: DailyTask): (r: DailyTask)
    ensures r.status == Done <==> t.status != Done
    ensures t.status != Done ==> !r.isActive
    ensures t.status == Done ==> r.status == ToDo && r.isActive == t.isActive
    ensures r.(status := t.status, isActive := t.isActive) == t
  {
    if t.status == Done then t.(status := ToDo) else t.(status := Done, isActive := false)
  }

  function ToggleTask(ts: seq<DailyTask>, id: string): (r: seq<DailyTask>)
    ensures |r| == |ts|
    ensures forall i :: 0 <= i < |ts| ==> r[i] == (if ts[i].id == id then Toggled(ts[i]) else ts[i])
  {
    seq(|ts|, i requires 0 <= i < |ts| => if ts[i].id == id then Toggled(ts[i]) else ts[i])
  }

  /** Completing and then reopening a task leaves it To Do and stopped, whatever its status was. */
  lemma ToggleTwice(t: DailyTask)
    requires t.status != Done
    ensures Toggled(Toggled(t)) == t.(status := ToDo, isActive := false)
  {
  }

  /** Toggling never starts a timer, so at most one timed task stays at most one. */
  lemma ToggleKeepsAtMostOneActive(ts: seq<DailyTask>, id: string)
    requires AtMostOneActive(ts)
    ensures AtMostOneActive(ToggleTask(ts, id))
    ensures TaskIds(ToggleTask(ts, id)) == TaskIds(ts)
  {
    var r := ToggleTask(ts, id);
    assert forall i :: 0 <= i < |ts| && r[i].isActive ==> ts[i].isActive;
  }

  /** `handleUpdateTaskStatus`. */
  function SetTaskStatus(ts: seq<DailyTask>, id: string, status: TaskStatus): (r: seq<DailyTask>)
    ensures |r| == |ts|
    ensures forall i :: 0 <= i < |ts| ==> r[i] == (if ts[i].id == id then ts[i].(status := status) else ts[i])
  {
    seq(|ts|, i requires 0 <= i < |ts| => if ts[i].id == id then ts[i].(status := status) else ts[i])
  }

  /**
   * Whether the task `handleStartStopTask` is called for is currently timed:
   * `dailyTasks.find(t => t.id === taskId)?.isActive`, false when there is none.
   */
  function TargetIsActive(ts: seq<DailyTask>, id: string): (a: bool)
    ensures a <==> exists k :: FirstWithId(ts, id, k) && ts[k].isActive
  {
    var k := FindIndex(ts, (t: DailyTask) => t.id == id);
    k >= 0 && ts[k].isActive
  }

  /** One task after `handleStartStopTask(id)`. */
  function StartStopped(t: DailyTask, id: string, targetActive: bool): DailyTask
  {
    if t.id == id then t.(isActive := !t.isActive, status := if t.isActive then t.status else InProgress)
    else if t.isActive && !targetActive then t.(isActive := false)
    else t
  }

  function StartStopTasks(ts: seq<DailyTask>, id: string): (r: seq<DailyTask>)
    ensures |r| == |ts|
    ensures forall i :: 0 <= i < |ts| ==> r[i] == StartStopped(ts[i], id, TargetIsActive(ts, id))
  {
    var a := TargetIsActive(ts, id);
    seq(|ts|, i requires 0 <= i < |ts| => StartStopped(ts[i], id, a))
  }

  /** Start/stop changes only timing and status: ids, titles, links and time spent stay. */
  lemma StartStopKeepsRecords(ts: seq<DailyTask>, id: string)
    ensures var r := StartStopTasks(ts, id);
      TaskIds(r) == TaskIds(ts) &&
      forall i :: 0 <= i < |ts| ==>
        r[i].(isActive := ts[i].isActive, status := ts[i].status) == ts[i] && r[i].timeSpent == ts[i].timeSpent
  {
  }

  /**
   * Starting a task from a store with distinct ids leaves exactly that task
   * timed and puts it In Progress.
   */
  lemma StartTaskIsOnlyActive(ts: seq<DailyTask>, id: string, k: nat)
    requires Distinct(TaskIds(ts)) && k < |ts| && ts[k].id == id && !ts[k].isActive
    ensures var r := StartStopTasks(ts, id);
      r[k].isActive && r[k].status == InProgress &&
      forall i :: 0 <= i < |r| && i != k ==> !r[i].isActive
  {
    assert forall i :: 0 <= i < |ts| && i != k ==> ts[i].id != id by {
      assert forall i :: 0 <= i < |ts| ==> TaskIds(ts)[i] == ts[i].id;
    }
    assert !TargetIsActive(ts, id);
  }

  /** Pausing the timed task stops it, keeps its status and touches no other task. */
  lemma PauseTask(ts: seq<DailyTask>, id: string, k: nat)
    requires Distinct(TaskIds(ts)) && k < |ts| && ts[k].id == id && ts[k].isActive
    ensures var r := StartStopTasks(ts, id);
      !r[k].isActive && r[k].status == ts[k].status &&
      forall i :: 0 <= i < |r| && i != k ==> r[i] == ts[i]
  {
    assert forall i :: 0 <= i < |ts| && i != k ==> ts[i].id != id by {
      assert forall i :: 0 <= i < |ts| ==> TaskIds(ts)[i] == ts[i].id;
    }
    assert TargetIsActive(ts, id);
  }

  /** For an id no task has, every timer stops and nothing else changes. */
  lemma StartStopUnknownId(ts: seq<DailyTask>, id: string)
    requires forall i :: 0 <= i < |ts| ==> ts[i].id != id
    ensures var r := StartStopTasks(ts, id);
      forall i :: 0 <= i < |ts| ==> r[i] == ts[i].(isActive := false)
  {
    assert !TargetIsActive(ts, id);
  }

  /** With distinct ids, start/stop keeps at most one task timed. */
  lemma StartStopKeepsAtMostOneActive(ts: seq<DailyTask>, id: string)
    requires Distinct(TaskIds(ts)) && AtMostOneActive(ts)
    ensures AtMostOneActive(StartStopTasks(ts, id))
  {
    var k := FindIndex(ts, (t: DailyTask) => t.id == id);
    if k < 0 {
      StartStopUnknownId(ts, id);
    } else if ts[k].isActive {
      PauseTask(ts, id, k);
    } else {
      StartTaskIsOnlyActive(ts, id, k);
    }
  }

  /** Distinct ids with at most one timed task in every collection. */
  predicate Consistent(gs: seq<MonthlyGoal>, ws: seq<WeeklyGoal>, ts: seq<DailyTask>)
  {
    Distinct(MonthlyIds(gs)) && Distinct(WeeklyIds(ws)) && Distinct(TaskIds(ts)) && AtMostOneActive(ts)
  }

  /** Each delete keeps a consistent state consistent: a filtered list keeps its ids distinct and its timed task unique. */
  lemma DeletesKeepConsistent(gs: seq<MonthlyGoal>, ws: seq<WeeklyGoal>, ts: seq<DailyTask>, id: string)
    requires Consistent(gs, ws, ts)
    ensures Consistent(RemoveMonthlyGoal(gs, id), ws, ts)
    ensures Consistent(gs, RemoveWeeklyGoal(ws, id), ts)
    ensures Consistent(gs, ws, RemoveTask(ts, id))
  {
    FilterPairwise(gs, (g: MonthlyGoal) => g.id != id, (a: MonthlyGoal, b: MonthlyGoal) => a.id != b.id);
    FilterPairwise(ws, (w: WeeklyGoal) => w.id != id, (a: WeeklyGoal, b: WeeklyGoal) => a.id != b.id);
    FilterPairwise(ts, (t: DailyTask) => t.id != id, (a: DailyTask, b: DailyTask) => a.id != b.id);
    FilterPairwise(ts, (t: DailyTask) => t.id != id, (a: DailyTask, b: DailyTask) => !(a.isActive && b.isActive));
  }

  // ---------------------------------------------------------------- templates

  // The template texts, one constant each.
  const Monthly1Title := "Launch Updated Website"
  const Monthly1Why := "Improve user experience and increase conversions by 20%"
  const Monthly1Resources := "Design team, Development resources, Content writer"
  const Monthly1Outcome := "Fully responsive website with improved load times and modern design"
  const Monthly1Steps := ["Finalize wireframes", "Complete design mockups", "Development sprint", "QA testing"]
  const Monthly2Title := "Increase Team Productivity"
  const Monthly2Why := "Reduce meeting time by 30% and improve project delivery speed"
  const Monthly2Resources := "Project management tools, Team leads, HR support"
  const Monthly2Outcome := "Streamlined workflows with documented processes and automated reporting"
  const Monthly2Steps := ["Audit current workflows", "Implement task automation", "Train team on new tools", "Measure improvements"]
  const Weekly1Title := "Complete Homepage Redesign"
  const Weekly2Title := "Set Up Project Management System"
  const Target1Title := "Finalize hero section design"
  const Target1Steps := ["Review competitors", "Create 3 variations", "Get stakeholder feedback"]
  const Target2Title := "Implement responsive navigation"
  const Target2Steps := ["Mobile-first approach", "Test on all devices"]
  const Target3Title := "Optimize images and assets"
  const Target3Steps := ["Compress images", "Set up lazy loading"]
  const Target4Title := "Choose and configure PM tool"
  const Target4Steps := ["Compare Asana vs Monday vs Notion", "Set up workspace", "Create project templates"]
  const Target5Title := "Migrate existing projects"
  const Target5Steps := ["Export current data", "Import to new system", "Verify all tasks"]
  const Target6Title := "Team onboarding"
  const Target6Steps := ["Create training materials", "Schedule team sessions", "Gather feedback"]
  const Task1Title := "Review competitor websites for inspiration"
  const Task1Tags := ["Research", "Design"]
  const Task2Title := "Compare PM tools and create recommendation doc"
  const Task2Tags := ["Research", "Documentation"]

  /** The two monthly goals that seed an empty store; the deadlines are 30 and 45 days from now. */
  function TemplateMonthlyGoals(deadline30: string, deadline45: string): seq<MonthlyGoal>
  {
    [ MonthlyGoal("template-monthly-1", Monthly1Title, Monthly1Why, Monthly1Resources, deadline30,
        Monthly1Outcome, Monthly1Steps, None, None, None, None, None, None, None),
      MonthlyGoal("template-monthly-2", Monthly2Title, Monthly2Why, Monthly2Resources, deadline45,
        Monthly2Outcome, Monthly2Steps, None, None, None, None, None, None, None) ]
  }

  /** The two weekly goals that seed an empty store, one per template monthly goal. */
  function TemplateWeeklyGoals(): seq<WeeklyGoal>
  {
    [ WeeklyGoal("template-weekly-1", "template-monthly-1", Weekly1Title,
        [ Target("target-1", Target1Title, Target1Steps, None),
          Target("target-2", Target2Title, Target2Steps, None),
          Target("target-3", Target3Title, Target3Steps, None) ],
        None),
      WeeklyGoal("template-weekly-2", "template-monthly-2", Weekly2Title,
        [ Target("target-4", Target4Title, Target4Steps, None),
          Target("target-5", Target5Title, Target5Steps, None),
          Target("target-6", Target6Title, Target6Steps, None) ],
        None) ]
  }

  /** The two template tasks, due today. */
  function TemplateDailyTasks(today: string): seq<DailyTask>
  {
    [ DailyTask("template-daily-1", "template-weekly-1", "target-1", Task1Title,
        today, None, Task1Tags, High, ToDo, 0, false, None, None, None, None),
      DailyTask("template-daily-2", "template-weekly-2", "target-4", Task2Title,
        today, None, Task2Tags, Mid, ToDo, 0, false, None, None, None, None) ]
  }

  /** Every template task names a template weekly goal and one of its targets, and every template weekly goal a template monthly goal. */
  predicate WellLinked(gs: seq<MonthlyGoal>, ws: seq<WeeklyGoal>, ts: seq<DailyTask>)
  {
    && (forall i :: 0 <= i < |ws| ==> ws[i].monthlyGoalId in MonthlyIds(gs))
    && (forall i :: 0 <= i < |ts| ==> exists j :: 0 <= j < |ws| && HasTargetFor(ws[j], ts[i]))
  }

  /** The task belongs to this weekly goal and names one of its targets. */
  predicate HasTargetFor(w: WeeklyGoal, t: DailyTask)
  {
    w.id == t.weeklyGoalId && exists k :: 0 <= k < |w.targets| && w.targets[k].id == t.targetId
  }

  lemma TemplateIds(deadline30: string, deadline45: string, today: string)
    ensures MonthlyIds(TemplateMonthlyGoals(deadline30, deadline45)) == ["template-monthly-1", "template-monthly-2"]
    ensures WeeklyIds(TemplateWeeklyGoals()) == ["template-weekly-1", "template-weekly-2"]
    ensures TaskIds(TemplateDailyTasks(today)) == ["template-daily-1", "template-daily-2"]
  {
  }

  /** No template task is being timed, so at most one is. */
  lemma TemplateTasksIdle(today: string)
    ensures forall i :: 0 <= i < |TemplateDailyTasks(today)| ==> !TemplateDailyTasks(today)[i].isActive
    ensures AtMostOneActive(TemplateDailyTasks(today))
  {
  }

  lemma TemplateTasksLinked(today: string)
    ensures forall i :: 0 <= i < |TemplateDailyTasks(today)| ==>
      exists j :: 0 <= j < |TemplateWeeklyGoals()| && HasTargetFor(TemplateWeeklyGoals()[j], TemplateDailyTasks(today)[i])
  {
    var ws, ts := TemplateWeeklyGoals(), TemplateDailyTasks(today);
    assert ws[0].targets[0].id == ts[0].targetId && HasTargetFor(ws[0], ts[0]);
    assert ws[1].targets[0].id == ts[1].targetId && HasTargetFor(ws[1], ts[1]);
  }

  /** The templates are consistent and linked to one another. */
  lemma TemplatesConsistent(deadline30: string, deadline45: string, today: string)
    ensures var gs, ws, ts := TemplateMonthlyGoals(deadline30, deadline45), TemplateWeeklyGoals(), TemplateDailyTasks(today);
      Consistent(gs, ws, ts) && WellLinked(gs, ws, ts)
  {
    TemplateIds(deadline30, deadline45, today);
    TemplateTasksIdle(today);
    TemplateTasksLinked(today);
    var ws := TemplateWeeklyGoals();
    assert ws[0].monthlyGoalId == "template-monthly-1" && ws[1].monthlyGoalId == "template-monthly-2";
  }

  /**
   * The load rule for one collection: the saved list when one was saved and
   * it is not empty, the templates otherwise.
   */
  function LoadCollection<T>(saved: Option<seq<T>>, templates: seq<T>): (r: seq<T>)
    ensures saved.Some? && saved.value != [] ==> r == saved.value
    ensures (saved == None || saved == Some([])) ==> r == templates
    ensures templates != [] ==> r != []
  {
    if saved.Some? && |saved.value| > 0 then saved.value else templates
  }

  // ---------------------------------------------------------------- the store

  class Workspace {
    var monthlyGoals: seq<MonthlyGoal>
    var weeklyGoals: seq<WeeklyGoal>
    var dailyTasks: seq<DailyTask>

    predicate Valid()
      reads this
    {
      Consistent(monthlyGoals, weeklyGoals, dailyTasks)
    }

    /** The state before the first load: three empty lists. */
    constructor ()
      ensures monthlyGoals == [] && weeklyGoals == [] && dailyTasks == []
      ensures Valid()
    {
      monthlyGoals, weeklyGoals, dailyTasks := [], [], [];
    }

    /**
     * The mount effect: each collection comes from what was saved, or from the
     * templates. `None` stands for a key that was never saved; the clock
     * readings are parameters.
     */
    method Load(savedMonthly: Option<seq<MonthlyGoal>>, savedWeekly: Option<seq<WeeklyGoal>>,
                savedTasks: Option<seq<DailyTask>>, deadline30: string, deadline45: string, today: string)
      modifies this
      ensures monthlyGoals == LoadCollection(savedMonthly, TemplateMonthlyGoals(deadline30, deadline45))
      ensures weeklyGoals == LoadCollection(savedWeekly, TemplateWeeklyGoals())
      ensures dailyTasks == LoadCollection(savedTasks, TemplateDailyTasks(today))
      ensures monthlyGoals != [] && weeklyGoals != [] && dailyTasks != []
      ensures savedMonthly == None && savedWeekly == None && savedTasks == None ==> Valid()
    {
      TemplatesConsistent(deadline30, deadline45, today);
      monthlyGoals := LoadCollection(savedMonthly, TemplateMonthlyGoals(deadline30, deadline45));
      weeklyGoals := LoadCollection(savedWeekly, TemplateWeeklyGoals());
      dailyTasks := LoadCollection(savedTasks, TemplateDailyTasks(today));
    }

    /** `handleAddMonthlyGoal`; `newId` is the random id the handler draws. */
    method AddMonthlyGoal(draft: MonthlyGoal, newId: string)
      modifies this
      ensures monthlyGoals == old(monthlyGoals) + [WithMonthlyId(draft, newId)]
      ensures weeklyGoals == old(weeklyGoals) && dailyTasks == old(dailyTasks)
      ensures old(Valid()) && newId !in MonthlyIds(old(monthlyGoals)) ==> Valid()
    {
      assert MonthlyIds(monthlyGoals + [WithMonthlyId(draft, newId)]) == MonthlyIds(monthlyGoals) + [newId];
      monthlyGoals := monthlyGoals + [WithMonthlyId(draft, newId)];
    }

    method AddWeeklyGoal(draft: WeeklyGoal, newId: string)
      modifies this
      ensures weeklyGoals == old(weeklyGoals) + [WithWeeklyId(draft, newId)]
      ensures monthlyGoals == old(monthlyGoals) && dailyTasks == old(dailyTasks)
      ensures old(Valid()) && newId !in WeeklyIds(old(weeklyGoals)) ==> Valid()
    {
      assert WeeklyIds(weeklyGoals + [WithWeeklyId(draft, newId)]) == WeeklyIds(weeklyGoals) + [newId];
      weeklyGoals := weeklyGoals + [WithWeeklyId(draft, newId)];
    }

    method UpdateWeeklyGoal(updated: WeeklyGoal)
      modifies this
      ensures weeklyGoals == ReplaceWeeklyGoal(old(weeklyGoals), updated)
      ensures monthlyGoals == old(monthlyGoals) && dailyTasks == old(dailyTasks)
      ensures old(Valid()) ==> Valid()
    {
      ReplaceWeeklyKeepsIds(weeklyGoals, updated);
      weeklyGoals := ReplaceWeeklyGoal(weeklyGoals, updated);
    }

    method ResetWeekly(id: string)
      modifies this
      ensures weeklyGoals == ResetWeeklyGoal(old(weeklyGoals), id)
      ensures monthlyGoals == old(monthlyGoals) && dailyTasks == old(dailyTasks)
      ensures old(Valid()) ==> Valid()
    {
      var r := ResetWeeklyGoal(weeklyGoals, id);
      assert WeeklyIds(r) == WeeklyIds(weeklyGoals);
      weeklyGoals := r;
    }

    /** Deleting a monthly goal leaves its weekly goals in place. */
    method DeleteMonthlyGoal(id: string)
      modifies this
      ensures monthlyGoals == RemoveMonthlyGoal(old(monthlyGoals), id)
      ensures weeklyGoals == old(weeklyGoals) && dailyTasks == old(dailyTasks)
      ensures old(Valid()) ==> Valid()
    {
      if Valid() {
        DeletesKeepConsistent(monthlyGoals, weeklyGoals, dailyTasks, id);
      }
      monthlyGoals := RemoveMonthlyGoal(monthlyGoals, id);
    }

    method UpdateMonthlyGoal(id: string, patch: MonthlyGoalPatch)
      modifies this
      ensures monthlyGoals == UpdateMonthlyGoals(old(monthlyGoals), id, patch)
      ensures weeklyGoals == old(weeklyGoals) && dailyTasks == old(dailyTasks)
      ensures old(Valid()) && (patch.id == None || patch.id == Some(id)) ==> Valid()
    {
      if patch.id == None || patch.id == Some(id) {
        UpdateMonthlyKeepsIds(monthlyGoals, id, patch);
      }
      monthlyGoals := UpdateMonthlyGoals(monthlyGoals, id, patch);
    }

    /** Deleting a weekly goal leaves its tasks in place. */
    method DeleteWeeklyGoal(id: string)
      modifies this
      ensures weeklyGoals == RemoveWeeklyGoal(old(weeklyGoals), id)
      ensures monthlyGoals == old(monthlyGoals) && dailyTasks == old(dailyTasks)
      ensures old(Valid()) ==> Valid()
    {
      if Valid() {
        DeletesKeepConsistent(monthlyGoals, weeklyGoals, dailyTasks, id);
      }
      weeklyGoals := RemoveWeeklyGoal(weeklyGoals, id);
    }

    method DeleteTask(id: string)
      modifies this
      ensures dailyTasks == RemoveTask(old(dailyTasks), id)
      ensures monthlyGoals == old(monthlyGoals) && weeklyGoals == old(weeklyGoals)
      ensures old(Valid()) ==> Valid()
    {
      if Valid() {
        DeletesKeepConsistent(monthlyGoals, weeklyGoals, dailyTasks, id);
      }
      dailyTasks := RemoveTask(dailyTasks, id);
    }

    method UpdateTask(id: string, patch: TaskPatch)
      modifies this
      ensures dailyTasks == UpdateTasks(old(dailyTasks), id, patch)
      ensures monthlyGoals == old(monthlyGoals) && weeklyGoals == old(weeklyGoals)
      ensures old(Valid()) && (patch.id == None || patch.id == Some(id)) && patch.isActive != Some(true) ==> Valid()
    {
      if Valid() && (patch.id == None || patch.id == Some(id)) && patch.isActive != Some(true) {
        UpdateTasksKeepsConsistent(monthlyGoals, weeklyGoals, dailyTasks, id, patch);
      }
      dailyTasks := UpdateTasks(dailyTasks, id, patch);
    }

    method AddTask(draft: DailyTask, newId: string)
      modifies this
      ensures dailyTasks == old(dailyTasks) + [NewTask(draft, newId)]
      ensures monthlyGoals == old(monthlyGoals) && weeklyGoals == old(weeklyGoals)
      ensures old(Valid()) && newId !in TaskIds(old(dailyTasks)) ==> Valid()
    {
      assert TaskIds(dailyTasks + [NewTask(draft, newId)]) == TaskIds(dailyTasks) + [newId];
      dailyTasks := dailyTasks + [NewTask(draft, newId)];
    }

    method ToggleTaskDone(id: string)
      modifies this
      ensures dailyTasks == ToggleTask(old(dailyTasks), id)
      ensures monthlyGoals == old(monthlyGoals) && weeklyGoals == old(weeklyGoals)
      ensures old(Valid()) ==> Valid()
    {
      if Valid() {
        ToggleKeepsAtMostOneActive(dailyTasks, id);
      }
      dailyTasks := ToggleTask(dailyTasks, id);
    }

    method UpdateTaskStatus(id: string, status: TaskStatus)
      modifies this
      ensures dailyTasks == SetTaskStatus(old(dailyTasks), id, status)
      ensures monthlyGoals == old(monthlyGoals) && weeklyGoals == old(weeklyGoals)
      ensures old(Valid()) ==> Valid()
    {
      var r := SetTaskStatus(dailyTasks, id, status);
      assert TaskIds(r) == TaskIds(dailyTasks);
      dailyTasks := r;
    }

    method StartStopTask(id: string)
      modifies this
      ensures dailyTasks == StartStopTasks(old(dailyTasks), id)
      ensures monthlyGoals == old(monthlyGoals) && weeklyGoals == old(weeklyGoals)
      ensures old(Valid()) ==> Valid()
    {
      StartStopKeepsRecords(dailyTasks, id);
      if Valid() {
        StartStopKeepsAtMostOneActive(dailyTasks, id);
      }
      dailyTasks := StartStopTasks(dailyTasks, id);
    }
  }
}
