/**
 * The records the application stores: monthly goals, weekly goals with their
 * embedded targets, daily tasks and employees, and the shallow-merge patches
 * (`Partial<T>` spread over a record) used to update goals and tasks.
 */
module Entities {
  import opened Wrappers

  datatype TaskStatus = ToDo | InProgress | Done
  datatype Priority = High | Mid | Low
  datatype GoalStatus = GoalInProgress | OnTrack | AtRisk

  /** A monthly goal; the optional fields are `undefined` until a form or patch sets them. */
  datatype MonthlyGoal = MonthlyGoal(
    id: string,
    title: string,
    why: string,
    resources: string,
    deadline: string,
    outcome: string,
    nextSteps: seq<string>,
    status: Option<GoalStatus>,
    project: Option<string>,
    kpi: Option<string>,
    teamLeader: Option<string>,
    notes: Option<string>,
    risk: Option<string>,
    completed: Option<bool>)

  /** A target embedded in a weekly goal. */
  datatype Target = Target(id: string, title: string, actionSteps: seq<string>, completed: Option<bool>)

  datatype WeeklyGoal = WeeklyGoal(
    id: string,
    monthlyGoalId: string,
    goalTitle: string,
    targets: seq<Target>,
    weekNumber: Option<int>)

  /** A daily task; `timeSpent` is in minutes. */
  datatype DailyTask = DailyTask(
    id: string,
    weeklyGoalId: string,
    targetId: string,
    title: string,
    dueDate: string,
    dueTime: Option<string>,
    tags: seq<string>,
    priority: Priority,
    status: TaskStatus,
    timeSpent: nat,
    isActive: bool,
    starred: Option<bool>,
    assignedTo: Option<string>,
    notes: Option<string>,
    addedToMyTasks: Option<bool>)

  /** `ts[k]` is the first task with the id, the one `find` and `findIndex` pick. */
  predicate FirstWithId(ts: seq<DailyTask>, id: string, k: int)
  {
    0 <= k < |ts| && ts[k].id == id && forall i :: 0 <= i < k ==> ts[i].id != id
  }

  datatype Employee = Employee(id: string, name: string, title: string, phoneNumber: string, email: string)

  /** What the signup form passes on (its confirmation field is not part of it). */
  datatype SignupData = SignupData(firstName: string, lastName: string, phoneNumber: string, email: string, password: string)

  /** What the company form passes on. */
  datatype CompanyData = CompanyData(companyName: string, natureOfWork: string, numberOfEmployees: string)

  /** The text the application shows for a priority. */
  function PriorityName(p: Priority): string
  {
    match p
    case High => "High"
    case Mid => "Mid"
    case Low => "Low"
  }

  /** A `Partial<MonthlyGoal>`: `Some(v)` for each key present in the update object. */
  datatype MonthlyGoalPatch = MonthlyGoalPatch(
    id: Option<string>,
    title: Option<string>,
    why: Option<string>,
    resources: Option<string>,
    deadline: Option<string>,
    outcome: Option<string>,
    nextSteps: Option<seq<string>>,
    status: Option<GoalStatus>,
    project: Option<string>,
    kpi: Option<string>,
    teamLeader: Option<string>,
    notes: Option<string>,
    risk: Option<string>,
    completed: Option<bool>)

  const NoMonthlyGoalChange := MonthlyGoalPatch(None, None, None, None, None, None, None, None, None, None, None, None, None, None)

  /** `{ ...goal, ...updates }`: every key present in the patch overrides the goal's. */
  function MergeMonthlyGoal(g: MonthlyGoal, p: MonthlyGoalPatch): MonthlyGoal
  {
    MonthlyGoal(
      p.id.GetOr(g.id), p.title.GetOr(g.title), p.why.GetOr(g.why),
      p.resources.GetOr(g.resources), p.deadline.GetOr(g.deadline), p.outcome.GetOr(g.outcome),
      p.nextSteps.GetOr(g.nextSteps),
      if p.status.Some? then p.status else g.status,
      if p.project.Some? then p.project else g.project,
      if p.kpi.Some? then p.kpi else g.kpi,
      if p.teamLeader.Some? then p.teamLeader else g.teamLeader,
      if p.notes.Some? then p.notes else g.notes,
      if p.risk.Some? then p.risk else g.risk,
      if p.completed.Some? then p.completed else g.completed)
  }

  /** A `Partial<DailyTask>`. */
  datatype TaskPatch = TaskPatch(
    id: Option<string>,
    weeklyGoalId: Option<string>,
    targetId: Option<string>,
    title: Option<string>,
    dueDate: Option<string>,
    dueTime: Option<string>,
    tags: Option<seq<string>>,
    priority: Option<Priority>,
    status: Option<TaskStatus>,
    timeSpent: Option<nat>,
    isActive: Option<bool>,
    starred: Option<bool>,
    assignedTo: Option<string>,
    notes: Option<string>,
    addedToMyTasks: Option<bool>)

  const NoTaskChange := TaskPatch(None, None, None, None, None, None, None, None, None, None, None, None, None, None, None)

  /** `{ ...task, ...updates }`. */
  function MergeTask(t: DailyTask, p: TaskPatch): DailyTask
  {
    DailyTask(
      p.id.GetOr(t.id), p.weeklyGoalId.GetOr(t.weeklyGoalId), p.targetId.GetOr(t.targetId),
      p.title.GetOr(t.title), p.dueDate.GetOr(t.dueDate),
      if p.dueTime.Some? then p.dueTime else t.dueTime,
      p.tags.GetOr(t.tags), p.priority.GetOr(t.priority), p.status.GetOr(t.status),
      p.timeSpent.GetOr(t.timeSpent), p.isActive.GetOr(t.isActive),
      if p.starred.Some? then p.starred else t.starred,
      if p.assignedTo.Some? then p.assignedTo else t.assignedTo,
      if p.notes.Some? then p.notes else t.notes,
      if p.addedToMyTasks.Some? then p.addedToMyTasks else t.addedToMyTasks)
  }

  /** The patch that carries every field of `t`, as when a whole edited task is passed as the update. */
  function FullTaskPatch(t: DailyTask): TaskPatch
  {
    TaskPatch(
      Some(t.id), Some(t.weeklyGoalId), Some(t.targetId), Some(t.title), Some(t.dueDate), t.dueTime,
      Some(t.tags), Some(t.priority), Some(t.status), Some(t.timeSpent), Some(t.isActive),
      t.starred, t.assignedTo, t.notes, t.addedToMyTasks)
  }

  /** An empty update object changes nothing. */
  lemma MergeNothing(g: MonthlyGoal, t: DailyTask)
    ensures MergeMonthlyGoal(g, NoMonthlyGoalChange) == g
    ensures MergeTask(t, NoTaskChange) == t
  {
  }

  /** Applying the same update twice is the same as applying it once. */
  lemma MergeIdempotent(g: MonthlyGoal, p: MonthlyGoalPatch, t: DailyTask, q: TaskPatch)
    ensures MergeMonthlyGoal(MergeMonthlyGoal(g, p), p) == MergeMonthlyGoal(g, p)
    ensures MergeTask(MergeTask(t, q), q) == MergeTask(t, q)
  {
  }

  /**
   * Passing an edited copy as the whole update replaces the task by the copy,
   * except for optional fields that the copy leaves `undefined`.
   */
  lemma MergeFullPatch(t: DailyTask, edited: DailyTask)
    requires edited.dueTime.Some? && edited.starred.Some? && edited.assignedTo.Some?
    requires edited.notes.Some? && edited.addedToMyTasks.Some?
    ensures MergeTask(t, FullTaskPatch(edited)) == edited
  {
  }
}
