# worklife-desks in Dafny

A model of the web app worklife-desks, a goal and task planner for small teams. It covers:

- the application's state, held in the root component: monthly goals, weekly goals (each with targets) and daily tasks;
- every handler that changes that state, including the start/stop timer, which lets at most one task run at a time;
- the progress figures derived from daily tasks: per target, per weekly goal and per monthly goal;
- the plain-text daily report;
- the sign-up → company → employees → authenticated onboarding flow, plus login and logout;
- the forms' validation and the text parsing behind them: comma-separated tags, newline-separated steps and the employee CSV upload.

Layout: one module per source file, plus shared modules.

- **Shared modules:**
  - `Wrappers`: Option.
  - `Text`: trimming, split/join, decimal rendering, the email pattern.
  - `Seqs`: Filter and Count.
  - `Entities`: the records and their partial-update merge.
  - `Steps`: newline-separated step lists.
  - `Progress`: the progress figures.
  - `Validation`: the email and password rules shared by two forms.
- **The root component** is split in three:
  - `Store.Workspace`: a class whose three `seq` fields the handlers reassign.
  - `Session.AuthSession`: a class over the authentication state and the browser's saved user.
  - `Report`: the daily report.
- **The pages** keep their own modules: `Goals`, `WeeklyPlanning`, `MonthlyDashboard`, `DailyTasks`, `Dashboard`, `Signup`, `Login`, `CompanyInfo`, `EmployeeInfo`.

Choices the model makes:

- **Parameters:** ids from `Date.now()` or `Math.random()`, the current date, locale-formatted dates and saved browser storage are passed in.
- **Rounding:** `Math.round(100·k/n)` is computed exactly on naturals, as `(200k + n) div 2n`.
- **Merges:** a `Partial<T>` merge `{...x, ...updates}` is a patch record of `Option` fields.
- **Stateful handlers:** each is a method whose `ensures` ties the new fields to a pure function of the old ones. The properties are proved as lemmas about those functions:
  - a prefix/suffix shape;
  - the at-most-one-active-task invariant;
  - round trips: tags, steps, CSV rows, the expand/save dialog.

Two behaviours of the code that the model keeps as written:

- The daily report always writes durations as `Hh Mm`, a zero hour included (`App.tsx` 382). Only the task list's `formatTime` drops a zero hour (`DailyTasks.tsx` 123-127).
- The CSV upload treats the first line as a header whenever it contains `name` in any case. That includes a data line such as `Anna Name,...`.

## Model

| member | source | states |
|---|---|---|
| Store.Workspace.constructor | src/app/App.tsx:35-37 | all three collections start empty and the store invariant holds |
| Store.Workspace.Load | src/app/App.tsx:200-226 | each collection is the saved list when one is present and non-empty, otherwise the template; all three come out non-empty; loading only templates gives a consistent store |
| Store.Workspace.AddMonthlyGoal | src/app/App.tsx:241-248 | the goal list gains exactly the draft, under the fresh id, at the end; nothing else changes; a fresh id keeps ids distinct |
| Store.Workspace.AddWeeklyGoal | src/app/App.tsx:250-257 | the weekly list gains exactly the draft under the fresh id at the end; other collections unchanged; invariant kept for a fresh id |
| Store.Workspace.UpdateWeeklyGoal | src/app/App.tsx:259-264 | every weekly goal with the same id is replaced by the update, others untouched; invariant kept |
| Store.Workspace.ResetWeekly | src/app/App.tsx:266-282 | the matching weekly goal is reset (blank title, target titles and steps) and nothing else changes; invariant kept |
| Store.Workspace.DeleteMonthlyGoal | src/app/App.tsx:284-287 | the monthly list loses exactly the goals with that id, nothing else changes; invariant kept |
| Store.Workspace.UpdateMonthlyGoal | src/app/App.tsx:289-293 | goals with the id are merged with the patch, others untouched; invariant kept when the patch sets no id or the goal's own id (the edit dialogs send the whole goal) |
| Store.Workspace.DeleteWeeklyGoal | src/app/App.tsx:295-298 | the weekly list loses exactly the goals with that id, nothing else changes; invariant kept |
| Store.Workspace.DeleteTask | src/app/App.tsx:300-303 | the task list loses exactly the tasks with that id, nothing else changes; invariant kept |
| Store.Workspace.UpdateTask | src/app/App.tsx:305-310 | tasks with the id are merged with the patch, others untouched; invariant kept when the patch sets no id or the task's own id and does not start a timer |
| Store.Workspace.AddTask | src/app/App.tsx:312-321 | the task list gains the draft at the end with the fresh id, zero time and not running; invariant kept for a fresh id |
| Store.Workspace.ToggleTaskDone | src/app/App.tsx:323-334 | the matching tasks toggle between Done and To Do; invariant (at most one running task) kept |
| Store.Workspace.UpdateTaskStatus | src/app/App.tsx:336-340 | the matching tasks get the new status, others untouched; invariant kept |
| Store.Workspace.StartStopTask | src/app/App.tsx:342-358 | the task list becomes the start/stop step of the old list; invariant kept |
| Store.WithMonthlyId | src/app/App.tsx:241-248 | the stored goal is the draft with only its id replaced |
| Store.UpdateMonthlyGoals | src/app/App.tsx:289-293 | same length; element i is merged with the patch exactly when its id matches |
| Store.UpdateMonthlyKeepsIds | src/app/App.tsx:289-293 | a patch that sets no id, or the goal's own id, keeps the id sequence |
| Store.RemoveMonthlyGoalExact | src/app/App.tsx:284-287 | no goal with the id survives; every other goal survives; nothing new appears; an absent id changes nothing |
| Store.WithWeeklyId | src/app/App.tsx:250-257 | the stored weekly goal is the draft with only its id replaced |
| Store.ReplaceWeeklyGoal | src/app/App.tsx:259-264 | same length; element i becomes the update exactly when its id matches |
| Store.ReplaceWeeklyKeepsIds | src/app/App.tsx:259-264 | replacement keeps the weekly id sequence |
| Store.ResetWeeklyGoal | src/app/App.tsx:266-282 | same length; element i is reset exactly when its id matches |
| Store.ResetGoalKeepsStructure | src/app/App.tsx:266-282 | a reset keeps ids, links, week, target ids and completion, blanks title, target titles and steps, and is idempotent |
| Store.RemoveWeeklyGoalExact | src/app/App.tsx:295-298 | no goal with the id survives, every other survives, nothing new appears; an absent id changes nothing |
| Store.DeletesKeepConsistent | src/app/App.tsx:284-303 | each of the three deletes keeps ids distinct and at most one task running |
| Store.NewTask | src/app/App.tsx:312-321 | the stored task is the draft with the fresh id, zero time and not running, and nothing else changed |
| Store.UpdateTasks | src/app/App.tsx:305-310 | same length; element i is merged with the patch exactly when its id matches |
| Store.UpdateTasksKeepsConsistent | src/app/App.tsx:305-310 | a patch that sets no id or the task's own id and does not start a timer keeps ids distinct and at most one timer running |
| Store.RemoveExistingTask | src/app/App.tsx:300-303 | with distinct ids, deleting the task at position k leaves exactly the tasks before and after it |
| Store.Toggled | src/app/App.tsx:323-334 | a Done task becomes To Do and keeps its timer flag; any other task becomes Done and stops its timer; no other field changes |
| Store.ToggleTask | src/app/App.tsx:323-334 | same length; element i is toggled exactly when its id matches |
| Store.ToggleTwice | src/app/App.tsx:323-334 | toggling an unfinished task twice gives it back as To Do and stopped |
| Store.ToggleKeepsAtMostOneActive | src/app/App.tsx:323-334 | toggling keeps at most one running task and keeps the ids |
| Store.SetTaskStatus | src/app/App.tsx:336-340 | same length; element i gets the status exactly when its id matches |
| Store.TargetIsActive | src/app/App.tsx:353 | true exactly when the first task with that id is running |
| Store.StartStopTasks | src/app/App.tsx:342-358 | same length; every task is transformed by the start/stop rule under the clicked task's old running flag |
| Store.StartStopKeepsRecords | src/app/App.tsx:342-358 | start/stop changes only running flags and statuses: ids, time and all other fields stay |
| Store.StartTaskIsOnlyActive | src/app/App.tsx:342-358 | starting an idle task makes it the only running task, marked In Progress |
| Store.PauseTask | src/app/App.tsx:342-358 | clicking the running task stops it, keeps its status and leaves every other task unchanged |
| Store.StartStopUnknownId | src/app/App.tsx:342-358 | an unknown id stops every task and changes nothing else |
| Store.StartStopKeepsAtMostOneActive | src/app/App.tsx:342-358 | with distinct ids, start/stop keeps at most one running task |
| Store.TemplateIds | src/app/App.tsx:131-197 | the template collections carry the fixed template ids |
| Store.TemplateTasksIdle | src/app/App.tsx:173-197 | no template task is running, so no more than one is |
| Store.TemplateTasksLinked | src/app/App.tsx:151-197 | every template task points at a target of some template weekly goal |
| Store.TemplatesConsistent | src/app/App.tsx:131-197 | the templates satisfy the store invariant and every link resolves |
| Store.LoadCollection | src/app/App.tsx:200-226 | a saved non-empty list wins; a missing or empty one gives the template; a non-empty template gives a non-empty result |
| Entities.MergeNothing | src/app/App.tsx:289-310 | merging an empty patch changes nothing |
| Entities.MergeIdempotent | src/app/App.tsx:289-310 | merging the same patch twice equals merging it once |
| Entities.MergeFullPatch | src/app/components/DailyTasks.tsx:604-608 | saving a fully edited task through the merge yields exactly the edited task |
| Session.Initial | src/app/App.tsx:27-32 | the app starts on the login page with no user, which satisfies the signed-in invariant |
| Session.Restore | src/app/App.tsx:39-49 | a saved user signs in at mount; saved employees replace the list; without a saved user the page and user stay |
| Session.OnEmployeeInfo | src/app/App.tsx:65-86 | with pending sign-up data the assembled user is signed in, saved and the pending data cleared; without it nothing changes |
| Session.OnLogin | src/app/App.tsx:89-116 | login always signs in with that email; a saved user with that email is reused; otherwise a demo user, saved only when remembered; nothing else changes |
| Session.OnLogout | src/app/App.tsx:118-123 | logout returns to the login page and forgets the current and saved user, nothing else |
| Session.HandlersKeepSignedIn | src/app/App.tsx:39-123 | every handler preserves "authenticated implies a current user" |
| Session.Onboarding | src/app/App.tsx:53-86 | sign-up, company, employees in sequence end authenticated as the user built from the sign-up and company data |
| Session.LogoutForgetsSignedUpUser | src/app/App.tsx:89-123 | after logout any login yields the demo user, since the saved user is gone |
| Session.RememberedLoginRestores | src/app/App.tsx:39-110 | a remembered login is restored as authenticated, with that email, on the next mount |
| Session.AuthSession.constructor | src/app/App.tsx:26-49 | the session starts in the restored initial state and satisfies the invariant |
| Session.AuthSession.SwitchToSignup | src/app/App.tsx:448 | the state becomes the sign-up page state |
| Session.AuthSession.SwitchToLogin | src/app/App.tsx:461 | the state becomes the login page state |
| Session.AuthSession.HandleSignup | src/app/App.tsx:53-56 | the sign-up data is kept pending and the company page shows |
| Session.AuthSession.HandleCompanyInfo | src/app/App.tsx:59-62 | the company data is kept pending and the employee page shows |
| Session.AuthSession.HandleEmployeeInfo | src/app/App.tsx:65-86 | the state becomes the employee-step transition of the old state |
| Session.AuthSession.HandleLogin | src/app/App.tsx:89-116 | the state becomes the login transition of the old state |
| Session.AuthSession.HandleLogout | src/app/App.tsx:118-123 | the state becomes the logout transition of the old state |
| Report.Duration | src/app/App.tsx:382 | a duration is digits spelling `minutes div 60`, then `h `, digits spelling `minutes mod 60`, then `m`, the hour shown also when 0 |
| Report.DurationInjective | src/app/App.tsx:382 | different minute counts render differently |
| Report.StatusCountsAddUp | src/app/App.tsx:378-381 | Done, In Progress and To Do counts add up to the number of tasks |
| Report.ReportSummary | src/app/App.tsx:368-382 | the summary's counts are the status counts, they add up to the total, and the time is the sum of task times |
| Report.SectionShowsPlaceholderIffEmpty | src/app/App.tsx:384-404 | a section shows its placeholder exactly when it has no items, otherwise the items joined by newlines |
| Report.Placeholders | src/app/App.tsx:384-404 | each section shows its placeholder exactly when no task has that status |
| Report.DailyReportContents | src/app/App.tsx:368-407 | the report holds the heading with the date, one summary line per status count (the number of tasks with that status), the total time tracked, and each task section under its title |
| Progress.RoundPercent | src/app/components/WeeklyPlanning.tsx:98-104 | the result is k/n·100 rounded half up, at most 100 when k ≤ n |
| Progress.RoundedMean | src/app/components/MonthlyDashboard.tsx:69-74 | the result is sum/len rounded half up, at most 100 when the mean is |
| Progress.RoundPercentEnds | src/app/components/WeeklyPlanning.tsx:98-104 | all done is 100 and none done is 0 |
| Progress.RoundPercentStrict | src/app/components/WeeklyPlanning.tsx:98-104 | below 200 tasks, partly done is below 100; up to 200 tasks, any done is above 0 |
| Progress.PercentDone | src/app/components/WeeklyPlanning.tsx:98-104 | the integer nearest to 100·done/linked, halves rounded up; at most 100; 0 for no tasks |
| Progress.PercentDoneExtremes | src/app/components/WeeklyPlanning.tsx:98-104 | all done gives 100 and none done gives 0; conversely, under 200 tasks, 100 means all done and 0 means none done |
| Progress.RoundsUpToComplete | src/app/components/WeeklyPlanning.tsx:98-104 | 199 of 200 done already shows 100 |
| Progress.WeeklyGoalProgress | src/app/App.tsx:427-433 | the integer nearest to 100·done/linked over the goal's linked tasks, halves rounded up; at most 100; 0 when no task links to the goal |
| Progress.TargetProgress | src/app/components/WeeklyPlanning.tsx:106-115 | total and completed count the target's tasks; percentage is their rounded share; all zero when no task matches |
| Progress.TargetCompleteIffAllDone | src/app/components/WeeklyPlanning.tsx:326 | a target shows complete when all its tasks are done, and (under 200 tasks) only then |
| Progress.WeeklyProgressExtremes | src/app/App.tsx:427-433 | all linked done gives 100, none gives 0, and (under 200 tasks) 100 means all done |
| Progress.WeeklyGoalsProgress | src/app/App.tsx:426-439 | one entry per weekly goal, copying id, link and title, with that goal's progress |
| Progress.MonthlyGoalProgress | src/app/components/MonthlyDashboard.tsx:69-74 | 0 with no linked weekly goal, else the rounded mean of their progress, at most 100 |
| Progress.MonthlyOfUniformWeekly | src/app/components/MonthlyDashboard.tsx:69-74 | linked weekly goals all at p give the monthly goal p |
| Progress.MonthlyRoundingExamples | src/app/components/MonthlyDashboard.tsx:69-74 | 33 and 34 average to 34; 100 and 50 to 75 |
| Goals.AddMonthlyGoal | src/app/components/Goals.tsx:100-138 | a title error exactly when the title is blank, a deadline error exactly when a deadline is set and past, nothing else; the goal is added exactly when there is no error |
| Goals.DraftNextSteps | src/app/components/Goals.tsx:117-124 | blank steps are dropped piecewise; all non-blank are kept; all blank gives none |
| Goals.TargetId | src/app/components/Goals.tsx:146-150 | the id is the `target-<now>-` prefix followed by decimal digits whose value is the row index |
| Goals.TargetIdInjective | src/app/components/Goals.tsx:146-150 | target ids built in one call differ by index |
| Goals.AddWeeklyGoal | src/app/components/Goals.tsx:140-160 | a goal only with a selected monthly goal and a non-blank title; one target per row with its title, generated id and non-blank steps |
| Goals.AddedTargetIdsDistinct | src/app/components/Goals.tsx:140-160 | the targets of an added weekly goal have distinct ids |
| Goals.RemoveRow | src/app/components/Goals.tsx:550-561 | the row at idx is removed and the rest keep their order |
| Goals.AddRow | src/app/components/Goals.tsx:566-571 | a blank row is appended after the existing ones |
| Goals.RowsRoundTrip | src/app/components/Goals.tsx:550-571 | removing the row just added restores the rows; with more than one row a removal leaves at least one |
| Goals.SetTargetCompleted | src/app/components/Goals.tsx:460-465 | only targets with that id change, and only their completion |
| Goals.TargetCheckboxLaws | src/app/components/Goals.tsx:460-465 | an unknown target changes nothing; setting the same value twice is idempotent |
| Goals.WeeklyGoalsForMonthly | src/app/components/Goals.tsx:177-179 | exactly the weekly goals linked to the monthly goal |
| Goals.WeeklyGoalsForMonthlyConcat | src/app/components/Goals.tsx:177-179 | the filter distributes over concatenation |
| Steps.ParseSteps | src/app/components/WeeklyPlanning.tsx:83 | no more steps than lines; every step is one of the text's lines, non-blank and without a newline |
| Steps.ParseStepsSingleLine | src/app/components/WeeklyPlanning.tsx:83 | a single line gives itself as the one step, or nothing when it is blank |
| Steps.ParseStepsCons | src/app/components/WeeklyPlanning.tsx:83 | the text's first line contributes its step ahead of the steps of the rest, in order |
| Steps.StepsRoundTrip | src/app/components/WeeklyPlanning.tsx:83 | joining clean steps with newlines and splitting again gives them back |
| Steps.StepsRoundTripAfter | src/app/components/WeeklyPlanning.tsx:83 | the same round trip with one more line in front |
| Steps.KeepNonBlank | src/app/components/Goals.tsx:124 | exactly the non-blank steps are kept |
| WeeklyPlanning.BuildTargets | src/app/components/WeeklyPlanning.tsx:117-128 | one target per titled row, with its id, title, parsed steps and no completion |
| WeeklyPlanning.BuildTargetsAllTitled | src/app/components/WeeklyPlanning.tsx:117-128 | when every row has a title, every row becomes a target |
| WeeklyPlanning.BuildTargetsAllBlank | src/app/components/WeeklyPlanning.tsx:117-128 | when no row has a title, there are no targets |
| WeeklyPlanning.SubmitWeeklyGoal | src/app/components/WeeklyPlanning.tsx:117-142 | a goal exactly when a monthly goal and a title are given, with the built targets |
| WeeklyPlanning.Expand | src/app/components/WeeklyPlanning.tsx:65-73 | the dialog holds the goal, its title and one row per target with its id, its title and its steps joined by line breaks |
| WeeklyPlanning.SaveExpanded | src/app/components/WeeklyPlanning.tsx:75-89 | the saved goal keeps id, link and week, takes the dialog's title and rows, clean steps, no completion |
| WeeklyPlanning.ExpandSaveRoundTrip | src/app/components/WeeklyPlanning.tsx:65-89 | opening and saving unchanged gives the goal back except target completion |
| WeeklyPlanning.ExpandSaveUnmarked | src/app/components/WeeklyPlanning.tsx:65-89 | with no completion marks, opening and saving gives the goal back exactly |
| MonthlyDashboard.EffectiveStatus | src/app/components/MonthlyDashboard.tsx:78 | an unset status counts as in progress |
| MonthlyDashboard.CountStatuses | src/app/components/MonthlyDashboard.tsx:77-81 | each count is the number of goals with that status (a missing status counting as in progress); the three add up to the number of goals |
| MonthlyDashboard.StatusCountsAddUp | src/app/components/MonthlyDashboard.tsx:77-81 | every goal falls in exactly one of the three filters |
| MonthlyDashboard.UnsetStatusesCountInProgress | src/app/components/MonthlyDashboard.tsx:77-81 | goals without a status are all counted in progress |
| MonthlyDashboard.StatusDisplay | src/app/components/MonthlyDashboard.tsx:83-105 | label, colour and text colour each tell the statuses apart; an unset status shows as in progress, yellow |
| MonthlyDashboard.SubmitMonthlyGoal | src/app/components/MonthlyDashboard.tsx:118-140 | a goal exactly when title and deadline are set, with the form's fields and parsed next steps |
| MonthlyDashboard.BlankFormRejected | src/app/components/MonthlyDashboard.tsx:118-140 | the blank form adds nothing |
| MonthlyDashboard.SubmittedStepsRoundTrip | src/app/components/MonthlyDashboard.tsx:118-140 | steps typed one per line come back as the goal's next steps |
| MonthlyDashboard.CompletionPatch | src/app/components/MonthlyDashboard.tsx:142-146 | the patch negates the current completion |
| MonthlyDashboard.CompletionToggle | src/app/components/MonthlyDashboard.tsx:142-146 | toggling flips only completion, and twice restores it |
| MonthlyDashboard.DaysInMonth | src/app/components/MonthlyDashboard.tsx:696 | 28 to 31 days; February has 29 exactly in leap years; April, June, September, November have 30 |
| MonthlyDashboard.YearLength | src/app/components/MonthlyDashboard.tsx:696 | the months add up to 365 or, in leap years, 366 days |
| MonthlyDashboard.CalendarDays | src/app/components/MonthlyDashboard.tsx:699-706 | blank cells before day 1, then days 1..n in order |
| MonthlyDashboard.DateKey | src/app/components/MonthlyDashboard.tsx:708 | for a real month and day, the key is the year's digits, `-`, the 1-based month as two digits, `-`, the day as two digits |
| MonthlyDashboard.DateKeyInjective | src/app/components/MonthlyDashboard.tsx:708 | different dates give different keys |
| MonthlyDashboard.GoalsForDate | src/app/components/MonthlyDashboard.tsx:707-710 | exactly the goals whose deadline is that day's key |
| MonthlyDashboard.GoalsForDateConcat | src/app/components/MonthlyDashboard.tsx:707-710 | the listing keeps the goals' order |
| MonthlyDashboard.GoalOnOneDay | src/app/components/MonthlyDashboard.tsx:707-710 | a goal shows on at most one day of a month |
| DailyTasks.FormatTime | src/app/components/DailyTasks.tsx:123-127 | from an hour it is the report duration; below, digits spelling the minutes then `m`, which is the report duration without its `0h ` |
| DailyTasks.FormatTimeInjective | src/app/components/DailyTasks.tsx:123-127 | different minute counts display differently |
| DailyTasks.HourMarkOnlyFromAnHour | src/app/components/DailyTasks.tsx:123-127 | an hour or more never displays like less than an hour |
| DailyTasks.ParseTags | src/app/components/DailyTasks.tsx:92 | every tag is non-empty, trimmed and comma-free |
| DailyTasks.ParseTagsSingle | src/app/components/DailyTasks.tsx:92 | comma-free text gives its trimmed self as the one tag, or none when blank |
| DailyTasks.ParseTagsCons | src/app/components/DailyTasks.tsx:92 | a first comma-free piece contributes its tag, if any, ahead of the rest's tags |
| DailyTasks.TagsRoundTrip | src/app/components/DailyTasks.tsx:563-566 | tags shown joined by ", " parse back to the same tags |
| DailyTasks.NoTags | src/app/components/DailyTasks.tsx:563-566 | no tags show as empty text, which parses to no tags |
| DailyTasks.SubmitTask | src/app/components/DailyTasks.tsx:88-95 | a task exactly when title, weekly goal, target and due date are set, with the form's fields, parsed tags and both flags off |
| DailyTasks.SelectWeeklyGoal | src/app/components/DailyTasks.tsx:194 | choosing a weekly goal clears the target and nothing else |
| DailyTasks.SelectEditedWeeklyGoal | src/app/components/DailyTasks.tsx:574 | the same for the edit dialog |
| DailyTasks.StarredFirst | src/app/components/DailyTasks.tsx:314-319 | a permutation with starred tasks first, each group in its old order |
| DailyTasks.StarredFirstWithoutStars | src/app/components/DailyTasks.tsx:314-319 | with no starred task the order is unchanged |
| DailyTasks.Tick | src/app/components/DailyTasks.tsx:72-81 | the new times are the per-minute update of the old |
| DailyTasks.TickUntouched | src/app/components/DailyTasks.tsx:72-81 | times of ids not in the task list stay |
| DailyTasks.TickKeys | src/app/components/DailyTasks.tsx:72-81 | the keys become the old keys plus every task id |
| DailyTasks.TickPerTask | src/app/components/DailyTasks.tsx:72-81 | with distinct ids each running task gains a minute and each idle one shows its stored time |
| DailyTasks.ToggleMember | src/app/components/DailyTasks.tsx:149-159 | the id's membership flips, all others stay |
| DailyTasks.ToggleMemberTwice | src/app/components/DailyTasks.tsx:149-159 | toggling twice restores the set |
| DailyTasks.ToggleNoteExpansion | src/app/components/DailyTasks.tsx:149-159 | the new set is the toggled old set |
| DailyTasks.FindTask | src/app/components/DailyTasks.tsx:132 | none exactly when no task has the id, else the first with it |
| DailyTasks.StarPatch | src/app/components/DailyTasks.tsx:129-137 | a patch exactly when the task exists, setting only the negated star |
| DailyTasks.MyTasksPatch | src/app/components/DailyTasks.tsx:139-147 | a patch exactly when the task exists, setting only the negated my-tasks flag |
| DailyTasks.PagePatchesKeepIdsAndTimers | src/app/components/DailyTasks.tsx:129-147 | the star, my-tasks and notes patches set neither an id nor the running flag, so the store update keeps its invariant for them |
| DailyTasks.NotesPatchSetsNotes | src/app/components/DailyTasks.tsx:425 | editing the notes replaces the notes and no other field |
| DailyTasks.FlagPatchesNegateOneFlag | src/app/components/DailyTasks.tsx:129-147 | each toggle negates one flag only, and twice restores its truth value |
| Dashboard.EmployeesWithStatus | src/app/components/Dashboard.tsx:47-52 | one entry per employee with an offered random task, its active flag, and only the first pinned |
| Dashboard.OnlyFirstPinned | src/app/components/Dashboard.tsx:47-52 | exactly one employee is pinned unless there are none |
| Dashboard.FirstThree | src/app/components/Dashboard.tsx:116 | the first three, or all when fewer |
| Dashboard.ShownWeeklyProgress | src/app/components/Dashboard.tsx:143-145 | the first entry's progress for the goal, or 0 when none |
| Dashboard.ShownProgressIsWeeklyProgress | src/app/components/Dashboard.tsx:143-145 | the dashboard shows the weekly goal's own progress |
| Dashboard.MonthlyPanel | src/app/components/Dashboard.tsx:116 | the first three monthly goals with their progress, each at most 100 |
| Dashboard.WeeklyPanel | src/app/components/Dashboard.tsx:143-145 | the first three weekly goals with their shown progress |
| Dashboard.WeeklyPanelBounded | src/app/components/Dashboard.tsx:143-145 | every shown weekly progress is at most 100 |
| Validation.EmailError | src/app/components/auth/SignupPage.tsx:35-36 | required exactly when blank; format error exactly when not blank and not matching; none otherwise |
| Validation.AcceptedEmailShape | src/app/components/auth/SignupPage.tsx:35-36 | an accepted email has an `@` with a `.` after it |
| Validation.NoAtRefused | src/app/components/auth/SignupPage.tsx:35-36 | text without `@` is refused |
| Validation.PatternUnanchored | src/app/components/auth/SignupPage.tsx:35-36 | the pattern matches anywhere, so surrounding text does not stop a match |
| Signup.PasswordError | src/app/components/auth/SignupPage.tsx:37-38 | required exactly when empty; too short exactly when 1 to 5 characters; none from 6 |
| Signup.Validate | src/app/components/auth/SignupPage.tsx:30-43 | each field's message is exactly its rule's; valid exactly when no message and when the form is acceptable |
| Signup.Submit | src/app/components/auth/SignupPage.tsx:45-56 | data is sent exactly for an acceptable form, without the confirmation |
| Signup.MismatchBlocks | src/app/components/auth/SignupPage.tsx:39 | a mismatched confirmation alone blocks the form |
| Signup.SpacesPassword | src/app/components/auth/SignupPage.tsx:37-38 | the password is not trimmed: six spaces pass |
| Login.Validate | src/app/components/auth/LoginPage.tsx:19-28 | email and password messages exactly by their rules; valid exactly when acceptable |
| Login.Submit | src/app/components/auth/LoginPage.tsx:30-35 | credentials are sent unchanged exactly for an acceptable form |
| Login.ShortPasswordAccepted | src/app/components/auth/LoginPage.tsx:22-24 | with a good email, any one-character password is accepted |
| CompanyInfo.Validate | src/app/components/auth/CompanyInfoPage.tsx:53-62 | each field's message exactly by its rule; valid exactly when acceptable |
| CompanyInfo.Submit | src/app/components/auth/CompanyInfoPage.tsx:64-69 | the form is sent unchanged exactly when acceptable |
| CompanyInfo.OfferedChoicesAccepted | src/app/components/auth/CompanyInfoPage.tsx:23-43 | a non-blank name with any offered choices is accepted |
| EmployeeInfo.InitialRows | src/app/components/auth/EmployeeInfoPage.tsx:19-33 | four blank rows |
| EmployeeInfo.AddEmployee | src/app/components/auth/EmployeeInfoPage.tsx:44-46 | one blank row is appended |
| EmployeeInfo.ChangeEmployee | src/app/components/auth/EmployeeInfoPage.tsx:38-42 | only rows with the id change, in the named field |
| EmployeeInfo.ChangeEmployeeLaws | src/app/components/auth/EmployeeInfoPage.tsx:38-42 | other fields stay; writing back the old value undoes the change |
| EmployeeInfo.Continue | src/app/components/auth/EmployeeInfoPage.tsx:90-100 | uploaded rows when there are some, else every manual row with a name, title or email and no other row |
| EmployeeInfo.ContinueConcat | src/app/components/auth/EmployeeInfoPage.tsx:90-100 | the manual rows passed on keep their order and repeats: concatenated forms give concatenated results |
| EmployeeInfo.ContinueSingle | src/app/components/auth/EmployeeInfoPage.tsx:90-100 | one manual row is passed on exactly when it has details |
| EmployeeInfo.ContinueUntouched | src/app/components/auth/EmployeeInfoPage.tsx:90-100 | untouched manual rows continue with nobody |
| EmployeeInfo.HeaderLength | src/app/components/auth/EmployeeInfoPage.tsx:61 | one line is skipped exactly when a header is detected |
| EmployeeInfo.CsvRows | src/app/components/auth/EmployeeInfoPage.tsx:58-61 | the non-blank lines, minus a detected header |
| EmployeeInfo.RowFieldsClean | src/app/components/auth/EmployeeInfoPage.tsx:64-71 | every parsed field is trimmed and comma-free |
| EmployeeInfo.RowEmployees | src/app/components/auth/EmployeeInfoPage.tsx:63-74 | one employee per data row |
| EmployeeInfo.ParseCsv | src/app/components/auth/EmployeeInfoPage.tsx:55-77 | the parsed list is one employee per data row, in order |
| EmployeeInfo.EmployeesOf | src/app/components/auth/EmployeeInfoPage.tsx:63-74 | the loop builds exactly the row-by-row employees |
| EmployeeInfo.CsvLineRoundTrip | src/app/components/auth/EmployeeInfoPage.tsx:64-71 | a clean employee written as a CSV line parses back to itself |
| EmployeeInfo.CsvFileRows | src/app/components/auth/EmployeeInfoPage.tsx:58-61 | a file with the header and one line per employee yields exactly those lines as rows |
| EmployeeInfo.CsvFileRoundTrip | src/app/components/auth/EmployeeInfoPage.tsx:55-77 | such a file parses back to the same employees under the new ids |
| Text.Trim | src/app/components/DailyTasks.tsx:92 | the result is trimmed, empty exactly for all-space text, drawn from the input, and trimmed text is unchanged |
| Text.TrimCutsEdges | src/app/components/DailyTasks.tsx:92 | the result is the slice of the input left after cutting only white space before and after it |
| Text.TrimSpaceBefore | src/app/components/DailyTasks.tsx:566 | trimming removes the space ", " leaves before a tag |
| Text.JoinSplit | src/app/components/DailyTasks.tsx:92 | joining the pieces of a split with the separator gives the text back |
| Text.SplitJoin | src/app/components/DailyTasks.tsx:563-566 | splitting separator-free parts joined by the separator gives them back |
| Text.NatToString | src/app/App.tsx:378 | `${n}` is one or more decimal digits, without a leading zero, whose decimal value is n |
| Text.ToLowerAscii | src/app/components/auth/EmployeeInfoPage.tsx:61 | same length; exactly capital letters are lowered |

## Left out

- Browser storage as such (`localStorage`, JSON): saved values are parameters of `Load`, `Restore` and the session constructor. The save effects are not modelled (`App.tsx` 229-239).
- Timers and clocks: `setInterval` becomes one `Tick` per call. `Date.now()`, `new Date()` and the past-deadline comparison are parameters.
- Randomness: `Math.random()` ids and the dashboard's random task become parameter sequences.
- Locale formatting (`toLocaleDateString`) becomes a parameter function. `Report.DailyReport` is not tied to any particular locale.
- `FileReader`, the `text/csv` type check and the file input: the CSV text is a parameter.
- Rendering, toasts, dialogs open/closed, `getCheckboxStyle` and other purely visual helpers. The weekly calendar view, the profile page and the auth barrel file (`auth/index.ts`) contain no state logic. `handleForgotPassword` only shows a toast.
- Character handling:
  - `toLowerCase` is modelled for ASCII letters only.
  - JavaScript string length counts UTF-16 units; here it counts characters.
- Progress: floating-point `Math.round((k / n) * 100)` is replaced by exact half-up rounding of 100k/n. The two can disagree at half-way ratios from 40 linked tasks on: `(23 / 40) * 100` evaluates to 57.49999999999999 in floating point, so the code shows 57 where exact rounding gives 58 (likewise 46 of 80, 69 of 120, 29 of 200). Separately, exact rounding already reaches 100 at 199 of 200 done, so the converse halves of `Progress.PercentDoneExtremes` and `Progress.TargetCompleteIffAllDone` are stated below 200 tasks.
- Entities: patches can set optional fields but never clear them back to undefined.
- EmployeeInfo.ChangeEmployee: rows are edited by name, title, phone or email only; editing the `id` field through the same handler is not modelled.
- EmployeeInfo.CsvLineRoundTrip: holds for fields without commas, newlines or edge whitespace. The source's CSV parser handles no quoting, so its behaviour on other fields is not a round trip.
- MonthlyDashboard.DateKey: the year is a natural number; negative years are not modelled.
- WeeklyPlanning.SaveExpanded: the target's `completed` flag is dropped, as in the source. `ExpandSaveRoundTrip` states that loss.
- WeeklyPlanning.SubmitWeeklyGoal: the goal title is not trimmed (only checked non-empty), as in the source.
- CompanyInfo.Submit: the company name is passed on untrimmed, as in the source.
- Signup.Validate: error records are keyed by a field datatype rather than by property-name strings.
- Store.Workspace.UpdateTask: the invariant is promised only for patches that set no other id and do not set the running flag to true. A whole saved task (DailyTasks.tsx edit dialog) carries the running flag read when its dialog opened, and the model does not say what that does to the one-running-timer rule.
- DailyTasks.StarPatch: the absent-callback case (`onUpdateTask` undefined) is not modelled; the handler is taken to exist.
