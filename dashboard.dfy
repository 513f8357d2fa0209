/**
 * The home dashboard: the team list with its pinned first member, and the two
 * side panels that summarise the first three monthly and weekly goals with
 * their progress.
 */
module Dashboard {
  import opened Seqs
  import opened Entities
  import opened Progress

  // ------------------------------------------------------------ team list

  /** The task names a team member may be shown as working on. */
  const RandomTasks := ["Tyoharz listing.", "NBL.", "Worklifedesks.", "Bandana sourcing.", "Project review.", "Client call."]

  /** An employee as the team list shows them. */
  datatype EmployeeWithStatus = EmployeeWithStatus(employee: Employee, currentTask: string, isActive: bool, isPinned: bool)

  /**
   * `employeesWithStatus`. The random draws are parameters: `picks[i]` is the
   * index of the task name drawn for employee `i`, `active[i]` the outcome of
   * `Math.random() > 0.3`.
   */
  function EmployeesWithStatus(employees: seq<Employee>, picks: seq<nat>, active: seq<bool>): (r: seq<EmployeeWithStatus>)
    requires |picks| == |employees| && |active| == |employees|
    requires forall i :: 0 <= i < |picks| ==> picks[i] < |RandomTasks|
    ensures |r| == |employees|
    ensures forall i :: 0 <= i < |r| ==>
      && r[i].employee == employees[i]
      && r[i].currentTask in RandomTasks
      && r[i].isActive == active[i]
      && (r[i].isPinned <==> i == 0)
  {
    seq(|employees|, i requires 0 <= i < |employees| =>
      EmployeeWithStatus(employees[i], RandomTasks[picks[i]], active[i], i == 0))
  }

  /** Exactly one employee is pinned, the first, whenever there is one. */
  lemma OnlyFirstPinned(employees: seq<Employee>, picks: seq<nat>, active: seq<bool>)
    requires |picks| == |employees| && |active| == |employees|
    requires forall i :: 0 <= i < |picks| ==> picks[i] < |RandomTasks|
    ensures var r := EmployeesWithStatus(employees, picks, active);
      |Filter(r, (e: EmployeeWithStatus) => e.isPinned)| == if employees == [] then 0 else 1
  {
    var r := EmployeesWithStatus(employees, picks, active);
    var pinned := (e: EmployeeWithStatus) => e.isPinned;
    if r != [] {
      assert r == [r[0]] + r[1..];
      FilterNone(r[1..], pinned);
    }
  }

  // ------------------------------------------------------------ side panels

  /** `slice(0, 3)`. */
  function FirstThree<T>(s: seq<T>): (r: seq<T>)
    ensures |r| == if |s| < 3 then |s| else 3
    ensures r == s[..|r|]
  {
    if |s| < 3 then s else s[..3]
  }

  /** `entries[k]` is the first entry with that id. */
  predicate FirstEntryWith(entries: seq<WeeklyProgressEntry>, goalId: string, k: int)
  {
    0 <= k < |entries| && entries[k].id == goalId && forall i :: 0 <= i < k ==> entries[i].id != goalId
  }

  /**
   * A weekly goal's progress as the panel shows it: that of the first progress
   * entry with the goal's id, or 0 when there is none.
   */
  function ShownWeeklyProgress(entries: seq<WeeklyProgressEntry>, goalId: string): (r: nat)
    ensures (forall i :: 0 <= i < |entries| ==> entries[i].id != goalId) ==> r == 0
    ensures forall k :: FirstEntryWith(entries, goalId, k) ==> r == entries[k].progress
  {
    var k := FindIndex(entries, (e: WeeklyProgressEntry) => e.id == goalId);
    if k < 0 then 0 else entries[k].progress
  }

  /**
   * Read from App's progress list, the panel shows each weekly goal's own
   * progress, provided no earlier weekly goal has the same id.
   */
  lemma ShownProgressIsWeeklyProgress(weekly: seq<WeeklyGoal>, tasks: seq<DailyTask>, i: nat)
    requires i < |weekly|
    requires forall j :: 0 <= j < i ==> weekly[j].id != weekly[i].id
    ensures ShownWeeklyProgress(WeeklyGoalsProgress(weekly, tasks), weekly[i].id) == WeeklyGoalProgress(weekly[i].id, tasks)
  {
    var entries := WeeklyGoalsProgress(weekly, tasks);
    assert entries[i].id == weekly[i].id;
    assert FirstEntryWith(entries, weekly[i].id, i);
  }

  /** One panel line: the goal's title and its progress. */
  datatype PanelItem = PanelItem(title: string, progress: nat)

  /** The monthly-goals panel: the first three goals with their rolled-up progress. */
  function MonthlyPanel(goals: seq<MonthlyGoal>, entries: seq<WeeklyProgressEntry>): (r: seq<PanelItem>)
    ensures |r| == if |goals| < 3 then |goals| else 3
    ensures forall i :: 0 <= i < |r| ==>
      r[i] == PanelItem(goals[i].title, MonthlyGoalProgress(goals[i].id, entries))
    ensures (forall i :: 0 <= i < |entries| ==> entries[i].progress <= 100) ==>
      forall i :: 0 <= i < |r| ==> r[i].progress <= 100
  {
    var shown := FirstThree(goals);
    seq(|shown|, i requires 0 <= i < |shown| => PanelItem(shown[i].title, MonthlyGoalProgress(shown[i].id, entries)))
  }

  /** The weekly-goals panel: the first three weekly goals with their shown progress. */
  function WeeklyPanel(weekly: seq<WeeklyGoal>, entries: seq<WeeklyProgressEntry>): (r: seq<PanelItem>)
    ensures |r| == if |weekly| < 3 then |weekly| else 3
    ensures forall i :: 0 <= i < |r| ==>
      r[i] == PanelItem(weekly[i].goalTitle, ShownWeeklyProgress(entries, weekly[i].id))
  {
    var shown := FirstThree(weekly);
    seq(|shown|, i requires 0 <= i < |shown| => PanelItem(shown[i].goalTitle, ShownWeeklyProgress(entries, shown[i].id)))
  }

  /** Built from App's progress list, every weekly panel figure is a percentage. */
  lemma WeeklyPanelBounded(weekly: seq<WeeklyGoal>, tasks: seq<DailyTask>)
    ensures var r := WeeklyPanel(weekly, WeeklyGoalsProgress(weekly, tasks));
      forall i :: 0 <= i < |r| ==> r[i].progress <= 100
  {
    var entries := WeeklyGoalsProgress(weekly, tasks);
    var r := WeeklyPanel(weekly, entries);
    forall i | 0 <= i < |r| ensures r[i].progress <= 100 {
      var k := FindIndex(entries, (e: WeeklyProgressEntry) => e.id == weekly[i].id);
      if k >= 0 {
        assert r[i].progress == entries[k].progress;
      }
    }
  }
}
