/**
 * The daily-task page's own logic: the short time format, tag parsing, the
 * new-task form and its guard, the "starred first" display order, the
 * per-minute tick of displayed times, the note-expansion set and the flag
 * patches it sends to the store.
 */
module DailyTasks {
  import opened Wrappers
  import opened Seqs
  import opened Text
  import opened Entities
  import opened Report

  // ---------------------------------------------------------------- formatTime

  /** `formatTime`: "Hh Mm" when there is at least one hour, "Mm" otherwise. */
  function FormatTime(minutes: nat): (r: string)
    ensures minutes >= 60 ==> r == Duration(minutes)
    ensures minutes < 60 ==> exists m: string :: IsDigits(m) && DecimalValue(m) == minutes && r == m + "m"
    ensures minutes < 60 ==> Duration(minutes) == "0h " + r
  {
    var hours, mins := minutes / 60, minutes % 60;
    if hours > 0 then
      var r := NatToString(hours) + "h " + NatToString(mins) + "m";
      assert r == Duration(minutes);
      r
    else
      var m := NatToString(mins);
      assert IsDigits(m) && mins == minutes;
      assert NatToString(hours) == "0";
      assert Duration(minutes) == "0h " + (m + "m");
      m + "m"
  }

  /** The short format also tells minute counts apart. */
  lemma FormatTimeInjective(a: nat, b: nat)
    requires FormatTime(a) == FormatTime(b)
    ensures a == b
  {
    if a >= 60 && b >= 60 {
      DurationInjective(a, b);
    } else if a < 60 && b < 60 {
      assert Duration(a) == Duration(b);
      DurationInjective(a, b);
    } else if a >= 60 {
      HourMarkOnlyFromAnHour(a, b);
    } else {
      HourMarkOnlyFromAnHour(b, a);
    }
  }

  /** Below an hour the format has no 'h', from an hour on it has one. */
  lemma HourMarkOnlyFromAnHour(long: nat, short: nat)
    requires long >= 60 && short < 60
    ensures FormatTime(long) != FormatTime(short)
  {
    var d := FormatTime(long);
    assert d == Duration(long);
    var h: string, m: string :| IsDigits(h) && IsDigits(m) && DecimalValue(h) == long / 60
      && DecimalValue(m) == long % 60 && d == h + "h " + m + "m";
    assert d[|h|] == 'h';
    var s := FormatTime(short);
    var digits: string :| IsDigits(digits) && DecimalValue(digits) == short && s == digits + "m";
    assert forall i :: 0 <= i < |s| ==> s[i] != 'h';
  }

  // --------------------------------------------------------------------- tags

  predicate NonEmpty(s: string)
  {
    s != ""
  }

  /** `s.split(',').map(tag => tag.trim()).filter(tag => tag !== '')`. */
  function ParseTags(input: string): (r: seq<string>)
    ensures forall i :: 0 <= i < |r| ==> r[i] != "" && IsTrimmed(r[i]) && ',' !in r[i]
  {
    TrimmedPiecesClean(input, ',');
    FilterMembers(TrimAll(Split(input, ',')), NonEmpty);
    Filter(TrimAll(Split(input, ',')), NonEmpty)
  }

  /** A text without a comma gives its trimmed self as the one tag, or no tag when it is blank. */
  lemma ParseTagsSingle(piece: string)
    requires ',' !in piece
    ensures ParseTags(piece) == if Trim(piece) == "" then [] else [Trim(piece)]
  {
    SplitNoSep(piece, ',');
    assert TrimAll([piece]) == [Trim(piece)];
    assert [Trim(piece)][1..] == [];
  }

  /** Tags are read piece by piece: the first comma-free piece's tag, if any, comes first. */
  lemma ParseTagsCons(first: string, rest: string)
    requires ',' !in first
    ensures ParseTags(first + "," + rest) == ParseTags(first) + ParseTags(rest)
  {
    var text, pieces := first + "," + rest, Split(rest, ',');
    SplitPrefix(first, ',', rest);
    SplitNoSep(first, ',');
    assert Split(text, ',') == [first] + pieces;
    assert Split(first, ',') == [first];
    TrimAllConcat([first], pieces);
    FilterConcat(TrimAll([first]), TrimAll(pieces), NonEmpty);
  }

  /** A tag the edit dialog can show and read back unchanged. */
  predicate CleanTag(t: string)
  {
    t != "" && IsTrimmed(t) && ',' !in t
  }

  function SpaceBeforeEach(ts: seq<string>): (r: seq<string>)
    ensures |r| == |ts| && forall i :: 0 <= i < |ts| ==> r[i] == " " + ts[i]
  {
    seq(|ts|, i requires 0 <= i < |ts| => " " + ts[i])
  }

  lemma {:induction false} JoinSpaced(ts: seq<string>)
    requires ts != []
    ensures Join(SpaceBeforeEach(ts), ",") == " " + Join(ts, ", ")
  {
    if |ts| > 1 {
      JoinSpaced(ts[1..]);
      assert SpaceBeforeEach(ts)[1..] == SpaceBeforeEach(ts[1..]);
    }
  }

  /** `a, b, c` is `a`, ` b`, ` c` joined by bare commas. */
  lemma JoinCommaSpace(tags: seq<string>)
    requires tags != []
    ensures Join(tags, ", ") == Join([tags[0]] + SpaceBeforeEach(tags[1..]), ",")
  {
    var parts := [tags[0]] + SpaceBeforeEach(tags[1..]);
    if |tags| > 1 {
      JoinSpaced(tags[1..]);
      assert parts[1..] == SpaceBeforeEach(tags[1..]);
    }
  }

  lemma TrimPieces(tags: seq<string>)
    requires tags != [] && forall i :: 0 <= i < |tags| ==> CleanTag(tags[i])
    ensures TrimAll([tags[0]] + SpaceBeforeEach(tags[1..])) == tags
  {
    var parts := [tags[0]] + SpaceBeforeEach(tags[1..]);
    assert Trim(parts[0]) == tags[0];
    forall i | 1 <= i < |parts| ensures Trim(parts[i]) == tags[i] {
      assert parts[i] == " " + tags[i];
      TrimSpaceBefore(tags[i]);
    }
  }

  /**
   * The edit dialog shows `tags.join(', ')` and parses what it reads back:
   * clean tags survive the round trip unchanged.
   */
  lemma TagsRoundTrip(tags: seq<string>)
    requires forall i :: 0 <= i < |tags| ==> CleanTag(tags[i])
    ensures ParseTags(Join(tags, ", ")) == tags
  {
    if tags == [] {
      NoTags();
    } else {
      SomeTags(tags);
    }
  }

  lemma NoTags()
    ensures ParseTags(Join([], ", ")) == []
  {
    assert Split("", ',') == [""];
    assert Trim("") == "";
    assert TrimAll([""]) == [""];
    assert Filter([""], NonEmpty) == [];
  }

  lemma SomeTags(tags: seq<string>)
    requires tags != [] && forall i :: 0 <= i < |tags| ==> CleanTag(tags[i])
    ensures ParseTags(Join(tags, ", ")) == tags
  {
    var text := Join(tags, ", ");
    var parts := [tags[0]] + SpaceBeforeEach(tags[1..]);
    JoinCommaSpace(tags);
    forall i | 0 <= i < |parts| ensures ',' !in parts[i] {
      if i > 0 {
        assert parts[i] == " " + tags[i];
      }
    }
    SplitJoin(parts, ',');
    assert Split(text, ',') == parts;
    TrimPieces(tags);
    FilterAll(tags, NonEmpty);
  }

  // ------------------------------------------------------------ new-task form

  /** The new-task form; all fields are text except the two selects. */
  datatype NewTaskForm = NewTaskForm(
    weeklyGoalId: string, targetId: string, title: string, dueDate: string, dueTime: string,
    assignedTo: string, notes: string, tags: string, priority: Priority, status: TaskStatus)

  const BlankTaskForm := NewTaskForm("", "", "", "", "", "", "", "", Mid, ToDo)

  /**
   * `handleSubmit`: nothing unless title, weekly goal, target and due date are
   * all non-empty (not trimmed); otherwise the draft for the store, not starred
   * and not in My Tasks. Its id, time and timing flag are placeholders the store replaces.
   */
  function SubmitTask(f: NewTaskForm): (r: Option<DailyTask>)
    ensures r.Some? <==> f.title != "" && f.weeklyGoalId != "" && f.targetId != "" && f.dueDate != ""
    ensures r.Some? ==> var t := r.value;
      && t.title == f.title && t.weeklyGoalId == f.weeklyGoalId && t.targetId == f.targetId
      && t.dueDate == f.dueDate && t.dueTime == Some(f.dueTime) && t.assignedTo == Some(f.assignedTo)
      && t.notes == Some(f.notes) && t.priority == f.priority && t.status == f.status
      && t.tags == ParseTags(f.tags) && t.starred == Some(false) && t.addedToMyTasks == Some(false)
  {
    if f.title != "" && f.weeklyGoalId != "" && f.targetId != "" && f.dueDate != "" then
      Some(DailyTask("", f.weeklyGoalId, f.targetId, f.title, f.dueDate, Some(f.dueTime), ParseTags(f.tags),
        f.priority, f.status, 0, false, Some(false), Some(f.assignedTo), Some(f.notes), Some(false)))
    else None
  }

  /** Choosing a weekly goal in the form clears the chosen target. */
  function SelectWeeklyGoal(f: NewTaskForm, goalId: string): (r: NewTaskForm)
    ensures r.weeklyGoalId == goalId && r.targetId == ""
    ensures r.(weeklyGoalId := f.weeklyGoalId, targetId := f.targetId) == f
  {
    f.(weeklyGoalId := goalId, targetId := "")
  }

  /** The same in the edit dialog, on the task being edited. */
  function SelectEditedWeeklyGoal(t: DailyTask, goalId: string): (r: DailyTask)
    ensures r.weeklyGoalId == goalId && r.targetId == ""
    ensures r.(weeklyGoalId := t.weeklyGoalId, targetId := t.targetId) == t
  {
    t.(weeklyGoalId := goalId, targetId := "")
  }

  // ------------------------------------------------------------ starred first

  predicate IsStarred(t: DailyTask)
  {
    Truthy(t.starred)
  }

  predicate NotStarred(t: DailyTask)
  {
    !Truthy(t.starred)
  }

  /**
   * `[...tasks].sort(starred before unstarred)`: the sort is stable, so this is
   * the starred tasks in their order followed by the others in theirs.
   */
  function StarredFirst(ts: seq<DailyTask>): (r: seq<DailyTask>)
    ensures |r| == |ts| && multiset(r) == multiset(ts)
    ensures forall i, j :: 0 <= i < j < |r| && IsStarred(r[j]) ==> IsStarred(r[i])
    ensures Filter(r, IsStarred) == Filter(ts, IsStarred) && Filter(r, NotStarred) == Filter(ts, NotStarred)
  {
    var a, b := Filter(ts, IsStarred), Filter(ts, NotStarred);
    FilterPartitionMultiset(ts, IsStarred, NotStarred);
    CountSplit(ts, IsStarred, NotStarred);
    FilterConcat(a, b, IsStarred);
    FilterConcat(a, b, NotStarred);
    FilterAll(a, IsStarred);
    FilterNone(b, IsStarred);
    FilterNone(a, NotStarred);
    FilterAll(b, NotStarred);
    a + b
  }

  /** A list with no starred task is shown in its own order. */
  lemma StarredFirstWithoutStars(ts: seq<DailyTask>)
    requires forall i :: 0 <= i < |ts| ==> !IsStarred(ts[i])
    ensures StarredFirst(ts) == ts
  {
    FilterNone(ts, IsStarred);
    FilterAll(ts, NotStarred);
  }

  // --------------------------------------------------------------------- tick

  /** `newTimes[id] || timeSpent`: an absent or zero entry falls back to the task's time. */
  function Shown(times: map<string, nat>, id: string, fallback: nat): nat
  {
    if id in times && times[id] != 0 then times[id] else fallback
  }

  /** One tick applied to `ts` in order (a later task with the same id sees the earlier write). */
  function TickFrom(ts: seq<DailyTask>, times: map<string, nat>): map<string, nat>
    decreases |ts|
  {
    if ts == [] then times
    else
      var t := ts[0];
      var v := if t.isActive then Shown(times, t.id, t.timeSpent) + 1 else t.timeSpent;
      TickFrom(ts[1..], times[t.id := v])
  }

  /** The interval body: a copy of the displayed times updated task by task. */
  method Tick(ts: seq<DailyTask>, prev: map<string, nat>) returns (times: map<string, nat>)
    ensures times == TickFrom(ts, prev)
  {
    times := prev;
    var i := 0;
    while i < |ts|
      invariant 0 <= i <= |ts|
      invariant TickFrom(ts, prev) == TickFrom(ts[i..], times)
    {
      var t := ts[i];
      assert ts[i..][1..] == ts[i + 1..];
      if t.isActive {
        times := times[t.id := Shown(times, t.id, t.timeSpent) + 1];
      } else {
        times := times[t.id := t.timeSpent];
      }
      i := i + 1;
    }
  }

  /** The entry a tick writes for one task. */
  function TickValue(times: map<string, nat>, t: DailyTask): nat
  {
    if t.isActive then Shown(times, t.id, t.timeSpent) + 1 else t.timeSpent
  }

  /** An id no task has keeps its entry, or its absence. */
  lemma {:induction false} TickUntouched(ts: seq<DailyTask>, times: map<string, nat>, id: string)
    requires forall i :: 0 <= i < |ts| ==> ts[i].id != id
    ensures (id in TickFrom(ts, times)) == (id in times)
    ensures id in times ==> TickFrom(ts, times)[id] == times[id]
  {
    if ts != [] {
      TickUntouched(ts[1..], times[ts[0].id := TickValue(times, ts[0])], id);
    }
  }

  function IdSet(ts: seq<DailyTask>): set<string>
  {
    set i | 0 <= i < |ts| :: ts[i].id
  }

  /** A tick writes an entry for every task and for nothing else. */
  lemma {:induction false} TickKeys(ts: seq<DailyTask>, times: map<string, nat>)
    ensures TickFrom(ts, times).Keys == times.Keys + IdSet(ts)
  {
    if ts != [] {
      TickKeys(ts[1..], times[ts[0].id := TickValue(times, ts[0])]);
      assert IdSet(ts) == {ts[0].id} + IdSet(ts[1..]) by {
        forall x | x in IdSet(ts) ensures x in {ts[0].id} + IdSet(ts[1..]) {
          var i :| 0 <= i < |ts| && ts[i].id == x;
          if i > 0 {
            assert ts[1..][i - 1].id == x;
          }
        }
      }
    }
  }

  /** With distinct ids: active tasks advance one minute from what was shown, the others show their saved time. */
  lemma {:induction false} TickPerTask(ts: seq<DailyTask>, prev: map<string, nat>)
    requires forall i, j :: 0 <= i < j < |ts| ==> ts[i].id != ts[j].id
    ensures forall i :: 0 <= i < |ts| ==>
      (ts[i].id in TickFrom(ts, prev) && TickFrom(ts, prev)[ts[i].id] == TickValue(prev, ts[i]))
  {
    if ts != [] {
      var t, rest := ts[0], ts[1..];
      var next := prev[t.id := TickValue(prev, t)];
      assert forall i :: 0 <= i < |rest| ==> rest[i] == ts[i + 1] && rest[i].id != t.id;
      TickPerTask(rest, next);
      TickUntouched(rest, next, t.id);
      forall i | 1 <= i < |ts| ensures TickValue(next, ts[i]) == TickValue(prev, ts[i]) {
        assert ts[i].id != t.id;
      }
    }
  }

  // ------------------------------------------------------------- note toggles

  /** `toggleNoteExpansion` flips the membership of exactly one id. */
  function ToggleMember(s: set<string>, id: string): (r: set<string>)
    ensures forall x :: x in r <==> (x in s) != (x == id)
  {
    if id in s then s - {id} else s + {id}
  }

  lemma ToggleMemberTwice(s: set<string>, id: string)
    ensures ToggleMember(ToggleMember(s, id), id) == s
  {
  }

  /** The state update: copy the set, then delete or add the id. */
  method ToggleNoteExpansion(prev: set<string>, id: string) returns (next: set<string>)
    ensures next == ToggleMember(prev, id)
  {
    next := prev;
    if id in next {
      next := next - {id};
    } else {
      next := next + {id};
    }
  }

  // -------------------------------------------------------------- flag patches

  /** The first task with the id (`tasks.find`), if any. */
  function FindTask(ts: seq<DailyTask>, id: string): (r: Option<DailyTask>)
    ensures r.None? <==> forall i :: 0 <= i < |ts| ==> ts[i].id != id
    ensures r.Some? ==> r.value.id == id && exists k :: FirstWithId(ts, id, k) && ts[k] == r.value
  {
    var k := FindIndex(ts, (t: DailyTask) => t.id == id);
    if k < 0 then None else Some(ts[k])
  }

  /** `toggleStar`: the patch `{ starred: !task.starred }`, or no update for an unknown id. */
  function StarPatch(ts: seq<DailyTask>, id: string): (r: Option<TaskPatch>)
    ensures r.None? <==> FindTask(ts, id).None?
    ensures r.Some? ==> r.value == NoTaskChange.(starred := Some(!Truthy(FindTask(ts, id).value.starred)))
  {
    match FindTask(ts, id)
    case None => None
    case Some(t) => Some(NoTaskChange.(starred := Some(!Truthy(t.starred))))
  }

  /** `toggleAddToMyTasks`: the patch `{ addedToMyTasks: !task.addedToMyTasks }`. */
  function MyTasksPatch(ts: seq<DailyTask>, id: string): (r: Option<TaskPatch>)
    ensures r.None? <==> FindTask(ts, id).None?
    ensures r.Some? ==> r.value == NoTaskChange.(addedToMyTasks := Some(!Truthy(FindTask(ts, id).value.addedToMyTasks)))
  {
    match FindTask(ts, id)
    case None => None
    case Some(t) => Some(NoTaskChange.(addedToMyTasks := Some(!Truthy(t.addedToMyTasks))))
  }

  /**
   * Merged into the task it was computed from, each patch negates its own flag
   * (a missing flag counting as false) and changes nothing else; doing it twice
   * gives back the original flag's truth value.
   */
  lemma FlagPatchesNegateOneFlag(t: DailyTask)
    ensures var s := MergeTask(t, StarPatch([t], t.id).value);
      s == t.(starred := Some(!Truthy(t.starred))) &&
      Truthy(MergeTask(s, StarPatch([s], s.id).value).starred) == Truthy(t.starred)
    ensures var m := MergeTask(t, MyTasksPatch([t], t.id).value);
      m == t.(addedToMyTasks := Some(!Truthy(t.addedToMyTasks))) &&
      Truthy(MergeTask(m, MyTasksPatch([m], m.id).value).addedToMyTasks) == Truthy(t.addedToMyTasks)
  {
    assert FindTask([t], t.id) == Some(t);
    var s := MergeTask(t, StarPatch([t], t.id).value);
    assert FindTask([s], s.id) == Some(s);
    var m := MergeTask(t, MyTasksPatch([t], t.id).value);
    assert FindTask([m], m.id) == Some(m);
  }

  /** The notes editor's patch `{ notes: value }`. */
  function NotesPatch(value: string): TaskPatch
  {
    NoTaskChange.(notes := Some(value))
  }

  /** Editing the notes replaces the notes and nothing else. */
  lemma NotesPatchSetsNotes(t: DailyTask, value: string)
    ensures MergeTask(t, NotesPatch(value)) == t.(notes := Some(value))
  {
  }

  /**
   * The star, my-tasks and notes patches set neither an id nor the running
   * flag, so the store's update keeps its invariant for them.
   */
  lemma PagePatchesKeepIdsAndTimers(ts: seq<DailyTask>, id: string, value: string)
    ensures StarPatch(ts, id).Some? ==> StarPatch(ts, id).value.id == None && StarPatch(ts, id).value.isActive == None
    ensures MyTasksPatch(ts, id).Some? ==> MyTasksPatch(ts, id).value.id == None && MyTasksPatch(ts, id).value.isActive == None
    ensures NotesPatch(value).id == None && NotesPatch(value).isActive == None
  {
  }
}
