/**
 * Progress roll-up: task completion gives a weekly goal's (and a target's)
 * percentage; the mean of the already-rounded weekly percentages gives a
 * monthly goal's. `Math.round` over the exact ratio is round-half-up.
 */
module Progress {
  import opened Entities
  import opened Seqs

  /** `Math.round(k / n * 100)` computed exactly: the integer nearest to 100k/n, halves rounded up. */
  function RoundPercent(k: nat, n: nat): (r: nat)
    requires n > 0
    ensures 2 * n * r <= 200 * k + n < 2 * n * (r + 1)
    ensures k <= n ==> r <= 100
  {
    QuotientBounds(200 * k + n, 2 * n, 100);
    (200 * k + n) / (2 * n)
  }

  /** `Math.round(sum / len)` computed exactly, for a non-negative sum. */
  function RoundedMean(sum: nat, len: nat): (r: nat)
    requires len > 0
    ensures 2 * len * r <= 2 * sum + len < 2 * len * (r + 1)
    ensures sum <= 100 * len ==> r <= 100
  {
    QuotientBounds(2 * sum + len, 2 * len, 100);
    (2 * sum + len) / (2 * len)
  }

  /** The quotient brackets the dividend, and a dividend below d * (cap + 1) has a quotient of at most cap. */
  lemma QuotientBounds(a: nat, d: nat, cap: nat)
    requires d > 0
    ensures d * (a / d) <= a < d * (a / d + 1)
    ensures a < d * (cap + 1) ==> a / d <= cap
  {
    DivBounds(a, d);
    assert d * (a / d + 1) == d * (a / d) + d;
    if a < d * (cap + 1) && a / d > cap {
      MulMono(d, cap + 1, a / d);
    }
  }

  lemma DivBounds(a: nat, d: nat)
    requires d > 0
    ensures d * (a / d) <= a < d * (a / d) + d
  {
    var q, m := a / d, a % d;
    assert a == d * q + m;
  }

  lemma MulMono(d: nat, x: nat, y: nat)
    requires x <= y
    ensures d * x <= d * y
  {
  }

  lemma DivUnique(a: nat, d: nat, q: nat, m: nat)
    requires d > 0 && m < d && a == d * q + m
    ensures a / d == q
  {
    DivBounds(a, d);
    if a / d < q {
      MulMono(d, a / d + 1, q);
    } else if a / d > q {
      MulMono(d, q + 1, a / d);
    }
  }

  /** All done is exactly 100, none done exactly 0. */
  lemma RoundPercentEnds(n: nat)
    requires n > 0
    ensures RoundPercent(n, n) == 100 && RoundPercent(0, n) == 0
  {
    DivUnique(200 * n + n, 2 * n, 100, n);
    DivUnique(n, 2 * n, 0, n);
  }

  /** Below 200 tasks, one task short of all done stays below 100, and one done is above 0. */
  lemma RoundPercentStrict(k: nat, n: nat)
    requires 0 < n
    ensures k < n < 200 ==> RoundPercent(k, n) < 100
    ensures 0 < k && n <= 200 ==> RoundPercent(k, n) > 0
  {
    var r := RoundPercent(k, n);
    if k < n < 200 && r >= 100 {
      MulMono(2 * n, 100, r);
    }
  }

  predicate IsDone(t: DailyTask)
  {
    t.status == Done
  }

  /** How many of the tasks are Done. */
  function DoneCount(tasks: seq<DailyTask>): nat
  {
    Count(tasks, IsDone)
  }

  /** The completion percentage of a selection of linked tasks; 0 for no tasks. */
  function PercentDone(linked: seq<DailyTask>): (r: nat)
    ensures r <= 100
    ensures |linked| == 0 ==> r == 0
    ensures |linked| > 0 ==> 2 * |linked| * r <= 200 * DoneCount(linked) + |linked| < 2 * |linked| * (r + 1)
  {
    if |linked| == 0 then 0 else RoundPercent(DoneCount(linked), |linked|)
  }

  lemma {:induction false} FilterFullLength<T>(s: seq<T>, p: T -> bool)
    requires |Filter(s, p)| == |s|
    ensures forall i :: 0 <= i < |s| ==> p(s[i])
  {
    if s != [] {
      FilterFullLength(s[1..], p);
      assert forall i :: 1 <= i < |s| ==> s[i] == s[1..][i - 1];
    }
  }

  /**
   * Every linked task Done gives 100 and none Done gives 0; with fewer than 200
   * linked tasks the converses hold too (at 200, 199 Done already rounds to 100).
   */
  lemma PercentDoneExtremes(linked: seq<DailyTask>)
    ensures |linked| > 0 && (forall i :: 0 <= i < |linked| ==> IsDone(linked[i])) ==> PercentDone(linked) == 100
    ensures (forall i :: 0 <= i < |linked| ==> !IsDone(linked[i])) ==> PercentDone(linked) == 0
    ensures |linked| < 200 && PercentDone(linked) == 100 ==>
      |linked| > 0 && forall i :: 0 <= i < |linked| ==> IsDone(linked[i])
    ensures 0 < |linked| <= 200 && PercentDone(linked) == 0 ==>
      forall i :: 0 <= i < |linked| ==> !IsDone(linked[i])
  {
    var n, k := |linked|, DoneCount(linked);
    FilterMembers(linked, IsDone);
    if n > 0 {
      RoundPercentEnds(n);
      RoundPercentStrict(k, n);
    }
    if n > 0 && (forall i :: 0 <= i < n ==> IsDone(linked[i])) {
      FilterAll(linked, IsDone);
    }
    if forall i :: 0 <= i < n ==> !IsDone(linked[i]) {
      FilterNone(linked, IsDone);
    }
    if 0 < n < 200 && PercentDone(linked) == 100 {
      FilterFullLength(linked, IsDone);
    }
  }

  /** With 200 linked tasks and one of them not Done the percentage is already 100. */
  lemma RoundsUpToComplete()
    ensures RoundPercent(199, 200) == 100
  {
  }

  /** The tasks linked to a weekly goal. */
  function LinkedTasks(goalId: string, tasks: seq<DailyTask>): seq<DailyTask>
  {
    Filter(tasks, (t: DailyTask) => t.weeklyGoalId == goalId)
  }

  /** `getWeeklyGoalProgress`: the completion percentage of the tasks linked to the goal. */
  function WeeklyGoalProgress(goalId: string, tasks: seq<DailyTask>): (r: nat)
    ensures r <= 100
    ensures (forall i :: 0 <= i < |tasks| ==> tasks[i].weeklyGoalId != goalId) ==> r == 0
    ensures var l := LinkedTasks(goalId, tasks);
      l != [] ==> 2 * |l| * r <= 200 * DoneCount(l) + |l| < 2 * |l| * (r + 1)
  {
    var linked := LinkedTasks(goalId, tasks);
    assert (forall i :: 0 <= i < |tasks| ==> tasks[i].weeklyGoalId != goalId) ==> linked == [] by {
      if forall i :: 0 <= i < |tasks| ==> tasks[i].weeklyGoalId != goalId {
        FilterNone(tasks, (t: DailyTask) => t.weeklyGoalId == goalId);
      }
    }
    PercentDone(linked)
  }

  /** Tasks matching both the weekly goal and the target. */
  function TargetTasks(goalId: string, targetId: string, tasks: seq<DailyTask>): seq<DailyTask>
  {
    Filter(tasks, (t: DailyTask) => t.weeklyGoalId == goalId && t.targetId == targetId)
  }

  datatype TargetProgressInfo = TargetProgressInfo(completed: nat, total: nat, percentage: nat)

  /** `getTargetProgress`. */
  function TargetProgress(goalId: string, targetId: string, tasks: seq<DailyTask>): (r: TargetProgressInfo)
    ensures r.total == |TargetTasks(goalId, targetId, tasks)|
    ensures r.total == 0 ==> r == TargetProgressInfo(0, 0, 0)
    ensures r.completed <= r.total && r.percentage <= 100
    ensures r.total > 0 ==> 2 * r.total * r.percentage <= 200 * r.completed + r.total < 2 * r.total * (r.percentage + 1)
    ensures r.completed == DoneCount(TargetTasks(goalId, targetId, tasks))
  {
    var linked := TargetTasks(goalId, targetId, tasks);
    if |linked| == 0 then TargetProgressInfo(0, 0, 0)
    else TargetProgressInfo(DoneCount(linked), |linked|, PercentDone(linked))
  }

  /**
   * A target shows as complete (`percentage === 100`) when all its tasks are Done;
   * with fewer than 200 tasks it shows as complete only then.
   */
  lemma TargetCompleteIffAllDone(goalId: string, targetId: string, tasks: seq<DailyTask>)
    ensures var info := TargetProgress(goalId, targetId, tasks);
      var matches := (t: DailyTask) => t.weeklyGoalId == goalId && t.targetId == targetId;
      && (info.total > 0 && (forall i :: 0 <= i < |tasks| && matches(tasks[i]) ==> IsDone(tasks[i])) ==> info.percentage == 100)
      && (info.total < 200 && info.percentage == 100 ==>
            info.total > 0 && forall i :: 0 <= i < |tasks| && matches(tasks[i]) ==> IsDone(tasks[i]))
  {
    var matches := (t: DailyTask) => t.weeklyGoalId == goalId && t.targetId == targetId;
    var linked := TargetTasks(goalId, targetId, tasks);
    FilterMembers(tasks, matches);
    PercentDoneExtremes(linked);
    if forall i :: 0 <= i < |tasks| && matches(tasks[i]) ==> IsDone(tasks[i]) {
      assert forall i :: 0 <= i < |linked| ==> IsDone(linked[i]);
    }
    var info := TargetProgress(goalId, targetId, tasks);
    if info.total < 200 && info.percentage == 100 {
      forall i | 0 <= i < |tasks| && matches(tasks[i]) ensures IsDone(tasks[i]) {
        assert tasks[i] in linked;
      }
    }
  }

  /** A weekly goal is at 100% when all its tasks are Done and at 0% when none is (and it has fewer than 200). */
  lemma WeeklyProgressExtremes(goalId: string, tasks: seq<DailyTask>)
    ensures var linked := LinkedTasks(goalId, tasks);
      && (|linked| > 0 && (forall i :: 0 <= i < |tasks| && tasks[i].weeklyGoalId == goalId ==> IsDone(tasks[i]))
          ==> WeeklyGoalProgress(goalId, tasks) == 100)
      && ((forall i :: 0 <= i < |tasks| && tasks[i].weeklyGoalId == goalId ==> !IsDone(tasks[i]))
          ==> WeeklyGoalProgress(goalId, tasks) == 0)
      && (|linked| < 200 && WeeklyGoalProgress(goalId, tasks) == 100 ==>
          forall i :: 0 <= i < |tasks| && tasks[i].weeklyGoalId == goalId ==> IsDone(tasks[i]))
  {
    var linked := LinkedTasks(goalId, tasks);
    FilterMembers(tasks, (t: DailyTask) => t.weeklyGoalId == goalId);
    PercentDoneExtremes(linked);
    if forall i :: 0 <= i < |tasks| && tasks[i].weeklyGoalId == goalId ==> IsDone(tasks[i]) {
      assert forall i :: 0 <= i < |linked| ==> IsDone(linked[i]);
    }
    if forall i :: 0 <= i < |tasks| && tasks[i].weeklyGoalId == goalId ==> !IsDone(tasks[i]) {
      assert forall i :: 0 <= i < |linked| ==> !IsDone(linked[i]);
    }
    if |linked| < 200 && WeeklyGoalProgress(goalId, tasks) == 100 {
      forall i | 0 <= i < |tasks| && tasks[i].weeklyGoalId == goalId ensures IsDone(tasks[i]) {
        assert tasks[i] in linked;
      }
    }
  }

  /** One entry of App's `weeklyGoalsProgress`. */
  datatype WeeklyProgressEntry = WeeklyProgressEntry(id: string, monthlyGoalId: string, goalTitle: string, progress: nat)

  /** `weeklyGoalsProgress`: one entry per weekly goal, in order. */
  function WeeklyGoalsProgress(weekly: seq<WeeklyGoal>, tasks: seq<DailyTask>): (r: seq<WeeklyProgressEntry>)
    ensures |r| == |weekly|
    ensures forall i :: 0 <= i < |weekly| ==>
      && r[i].id == weekly[i].id && r[i].monthlyGoalId == weekly[i].monthlyGoalId
      && r[i].goalTitle == weekly[i].goalTitle
      && r[i].progress == WeeklyGoalProgress(weekly[i].id, tasks) && r[i].progress <= 100
  {
    seq(|weekly|, i requires 0 <= i < |weekly| =>
      WeeklyProgressEntry(weekly[i].id, weekly[i].monthlyGoalId, weekly[i].goalTitle, WeeklyGoalProgress(weekly[i].id, tasks)))
  }

  function SumProgress(entries: seq<WeeklyProgressEntry>): nat
  {
    if entries == [] then 0 else entries[0].progress + SumProgress(entries[1..])
  }

  lemma {:induction false} SumProgressBound(entries: seq<WeeklyProgressEntry>, bound: nat)
    requires forall i :: 0 <= i < |entries| ==> entries[i].progress <= bound
    ensures SumProgress(entries) <= bound * |entries|
  {
    if entries != [] {
      SumProgressBound(entries[1..], bound);
    }
  }

  lemma {:induction false} SumProgressConstant(entries: seq<WeeklyProgressEntry>, p: nat)
    requires forall i :: 0 <= i < |entries| ==> entries[i].progress == p
    ensures SumProgress(entries) == p * |entries|
  {
    if entries != [] {
      SumProgressConstant(entries[1..], p);
    }
  }

  /** The progress entries of the weekly goals under a monthly goal. */
  function LinkedEntries(goalId: string, entries: seq<WeeklyProgressEntry>): seq<WeeklyProgressEntry>
  {
    Filter(entries, (e: WeeklyProgressEntry) => e.monthlyGoalId == goalId)
  }

  /**
   * `getMonthlyGoalProgress` (the same in MonthlyDashboard and Dashboard): the
   * rounded mean of the linked weekly percentages, 0 with none linked.
   */
  function MonthlyGoalProgress(goalId: string, entries: seq<WeeklyProgressEntry>): (r: nat)
    ensures LinkedEntries(goalId, entries) == [] ==> r == 0
    ensures var linked := LinkedEntries(goalId, entries);
      linked != [] ==> 2 * |linked| * r <= 2 * SumProgress(linked) + |linked| < 2 * |linked| * (r + 1)
    ensures (forall i :: 0 <= i < |entries| ==> entries[i].progress <= 100) ==> r <= 100
  {
    var linked := LinkedEntries(goalId, entries);
    if |linked| == 0 then 0
    else
      assert (forall i :: 0 <= i < |entries| ==> entries[i].progress <= 100) ==> SumProgress(linked) <= 100 * |linked| by {
        if forall i :: 0 <= i < |entries| ==> entries[i].progress <= 100 {
          FilterMembers(entries, (e: WeeklyProgressEntry) => e.monthlyGoalId == goalId);
          SumProgressBound(linked, 100);
        }
      }
      RoundedMean(SumProgress(linked), |linked|)
  }

  /** When every linked weekly goal shows the same percentage, so does the monthly goal. */
  lemma MonthlyOfUniformWeekly(goalId: string, entries: seq<WeeklyProgressEntry>, p: nat)
    requires LinkedEntries(goalId, entries) != []
    requires forall i :: 0 <= i < |entries| && entries[i].monthlyGoalId == goalId ==> entries[i].progress == p
    ensures MonthlyGoalProgress(goalId, entries) == p
  {
    var linked := LinkedEntries(goalId, entries);
    var n := |linked|;
    FilterMembers(entries, (e: WeeklyProgressEntry) => e.monthlyGoalId == goalId);
    assert forall i :: 0 <= i < n ==> linked[i].progress == p;
    SumProgressConstant(linked, p);
    RoundedMeanConstant(p, n);
  }

  lemma RoundedMeanConstant(p: nat, n: nat)
    requires n > 0
    ensures RoundedMean(p * n, n) == p
  {
    assert 2 * (p * n) + n == (2 * n) * p + n;
    DivUnique(2 * (p * n) + n, 2 * n, p, n);
  }

  /** Rounding compounds across levels: weekly 33% and 34% give 34%, and 100% and 50% give 75%. */
  lemma MonthlyRoundingExamples()
    ensures MonthlyGoalProgress("m", [WeeklyProgressEntry("a", "m", "", 33), WeeklyProgressEntry("b", "m", "", 34)]) == 34
    ensures MonthlyGoalProgress("m", [WeeklyProgressEntry("a", "m", "", 100), WeeklyProgressEntry("b", "m", "", 50)]) == 75
  {
    var e1 := [WeeklyProgressEntry("a", "m", "", 33), WeeklyProgressEntry("b", "m", "", 34)];
    var e2 := [WeeklyProgressEntry("a", "m", "", 100), WeeklyProgressEntry("b", "m", "", 50)];
    assert LinkedEntries("m", e1) == e1;
    assert LinkedEntries("m", e2) == e2;
  }
}
