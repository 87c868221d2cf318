/** The log list that hooks/useProductivityData.ts holds in React state:
    the initial merge of the fixed logs with the saved ones (de-duplicated
    by id, newest first), `addLog`, which turns one day's submission into
    one log per task, and the option lists offered by the filter selectors. */
module Store {
  import opened Types
  import opened Seqs
  import opened Sorting
  import opened Engine

  // ------------------------------------------------------------ date order

  function DateKey(l: ProductivityLog): real {
    l.date as real
  }

  /** `.sort((a, b) => b.date - a.date)`: newest first, stable. */
  function SortByDateDesc(logs: seq<ProductivityLog>): (r: seq<ProductivityLog>)
    ensures |r| == |logs| && multiset(r) == multiset(logs)
    ensures forall i, j :: 0 <= i < j < |r| ==> r[i].date >= r[j].date
  {
    var r := SortDesc(logs, DateKey);
    assert forall i, j :: 0 <= i < j < |r| ==> DateKey(r[i]) >= DateKey(r[j]);
    r
  }

  /** The logs of one date keep their relative order when sorted by date. */
  lemma SortByDateDescStable(logs: seq<ProductivityLog>, day: Day)
    ensures Only(SortByDateDesc(logs), DateKey, day as real) == Only(logs, DateKey, day as real)
  {
    SortDescStable(logs, DateKey, day as real);
  }

  // ---------------------------------------------------------------- ids

  /** The id of every log, in log order. */
  function IdsOf(logs: seq<ProductivityLog>): (r: seq<string>)
    ensures |r| == |logs|
    ensures forall i :: 0 <= i < |logs| ==> r[i] == logs[i].id
    decreases |logs|
  {
    if logs == [] then [] else IdsOf(logs[..|logs| - 1]) + [logs[|logs| - 1].id]
  }

  /** No two logs share an id. */
  ghost predicate DistinctIds(logs: seq<ProductivityLog>) {
    forall i, j :: 0 <= i < j < |logs| ==> logs[i].id != logs[j].id
  }

  lemma DistinctIdsOf(logs: seq<ProductivityLog>)
    ensures DistinctIds(logs) <==> Distinct(IdsOf(logs))
  {
  }

  /** Reordering logs keeps their ids distinct. */
  lemma DistinctIdsPermutation(s: seq<ProductivityLog>, t: seq<ProductivityLog>)
    requires DistinctIds(s) && multiset(s) == multiset(t)
    ensures DistinctIds(t)
  {
    forall i, j | 0 <= i < j < |t| ensures t[i].id != t[j].id {
      assert t[i] in multiset(s) && t[j] in multiset(s);
      var a := IndexOf(s, t[i]);
      var b := IndexOf(s, t[j]);
      if t[i] == t[j] {
        Duplicate(t, i, j);
        assert Distinct(s);
        DistinctCount(s, t[i]);
      } else {
        assert a != b && s[a].id == t[i].id && s[b].id == t[j].id;
      }
    }
  }

  // --------------------------------------------------------- de-duplication

  /** The position of the last log carrying `id`. */
  function LastIndexOfId(logs: seq<ProductivityLog>, id: string): (k: nat)
    requires id in IdsOf(logs)
    ensures k < |logs| && logs[k].id == id
    ensures forall j :: k < j < |logs| ==> logs[j].id != id
    decreases |logs|
  {
    var n := |logs| - 1;
    if logs[n].id == id then n
    else
      assert IdsOf(logs) == IdsOf(logs[..n]) + [logs[n].id];
      LastIndexOfId(logs[..n], id)
  }

  /** `Array.from(new Map(logs.map(log => [log.id, log])).values())`: one log
      per id, in the order in which the ids first occur, each being the last
      log that carries that id (a later `set` overwrites the value but keeps
      the key's position). */
  function DedupeById(logs: seq<ProductivityLog>): (r: seq<ProductivityLog>)
    ensures IdsOf(r) == Unique(IdsOf(logs))
    ensures DistinctIds(r)
    ensures forall l :: l in logs ==> l.id in IdsOf(r)
    ensures forall i :: 0 <= i < |r| ==>
      var k := LastIndexOfId(logs, r[i].id);
      r[i] == logs[k] && forall j :: k < j < |logs| ==> logs[j].id != logs[k].id
  {
    var ids := Unique(IdsOf(logs));
    var r := seq(|ids|, i requires 0 <= i < |ids| => logs[LastIndexOfId(logs, ids[i])]);
    LastLogsIds(logs, ids, r);
    DistinctIdsOf(r);
    IdsCovered(logs, ids);
    r
  }

  /** The logs picked for a list of present ids carry exactly those ids. */
  lemma LastLogsIds(logs: seq<ProductivityLog>, ids: seq<string>, r: seq<ProductivityLog>)
    requires forall id :: id in ids ==> id in IdsOf(logs)
    requires |r| == |ids|
    requires forall i :: 0 <= i < |r| ==> r[i] == logs[LastIndexOfId(logs, ids[i])]
    ensures IdsOf(r) == ids
  {
  }

  lemma IdsCovered(logs: seq<ProductivityLog>, ids: seq<string>)
    requires forall id :: id in ids <==> id in IdsOf(logs)
    ensures forall l :: l in logs ==> l.id in ids
  {
    forall l | l in logs ensures l.id in ids {
      assert logs[IndexOf(logs, l)].id in IdsOf(logs);
    }
  }

  /** Input whose ids are already distinct passes through unchanged. */
  lemma DedupeByIdIdentity(logs: seq<ProductivityLog>)
    requires DistinctIds(logs)
    ensures DedupeById(logs) == logs
  {
    var ids := IdsOf(logs);
    UniqueOfDistinct(ids);
    forall i | 0 <= i < |logs| ensures LastIndexOfId(logs, ids[i]) == i {
      var k := LastIndexOfId(logs, ids[i]);
      assert logs[k].id == logs[i].id;
    }
  }

  // ------------------------------------------------------------------ addLog

  /** `tasks.length > 0 ? hours / tasks.length : 0`. */
  function HoursPerTask(submission: DailyLogSubmission): (h: real)
    ensures |submission.tasks| == 0 ==> h == 0.0
    ensures |submission.tasks| > 0 ==> h * (|submission.tasks| as real) == submission.hours
  {
    if |submission.tasks| > 0 then submission.hours / (|submission.tasks| as real) else 0.0
  }

  /** The log for one task: the shared fields of the day, the task's own fields. */
  function TaskLog(submission: DailyLogSubmission, task: TaskItem, id: string): ProductivityLog {
    ProductivityLog(
      id,
      submission.employeeName,
      submission.employeeId,
      submission.department,
      submission.date,
      task.taskCategory,
      task.taskDescription,
      task.taskStatus,
      HoursPerTask(submission),
      submission.productivityRating,
      submission.blockers,
      submission.tasksCarriedOver)
  }

  /** `newLogs`: one log per task, in task order, with the given fresh ids. */
  function ExpandSubmission(submission: DailyLogSubmission, freshIds: seq<string>): (r: seq<ProductivityLog>)
    requires |freshIds| == |submission.tasks|
    ensures |r| == |submission.tasks|
    ensures IdsOf(r) == freshIds
    ensures forall i :: 0 <= i < |r| ==>
      && r[i].employeeName == submission.employeeName
      && r[i].employeeId == submission.employeeId
      && r[i].department == submission.department
      && r[i].date == submission.date
      && r[i].productivityRating == submission.productivityRating
      && r[i].blockers == submission.blockers
      && r[i].tasksCarriedOver == submission.tasksCarriedOver
      && r[i].taskDescription == submission.tasks[i].taskDescription
      && r[i].taskCategory == submission.tasks[i].taskCategory
      && r[i].taskStatus == submission.tasks[i].taskStatus
      && r[i].hours == HoursPerTask(submission)
  {
    var r := seq(|submission.tasks|, i requires 0 <= i < |submission.tasks| => TaskLog(submission, submission.tasks[i], freshIds[i]));
    assert IdsOf(r) == freshIds;
    r
  }

  lemma {:induction false} SumHoursUniform(logs: seq<ProductivityLog>, h: real)
    requires forall i :: 0 <= i < |logs| ==> logs[i].hours == h
    ensures SumHours(logs) == (|logs| as real) * h
    decreases |logs|
  {
    if logs != [] {
      var init := logs[..|logs| - 1];
      assert forall i :: 0 <= i < |init| ==> init[i] == logs[i];
      SumHoursUniform(init, h);
      MultipleStep(|init|, h);
    }
  }

  lemma MultipleStep(n: nat, h: real)
    ensures ((n + 1) as real) * h == (n as real) * h + h
  {
  }

  /** The split is exact: the new logs carry the submitted hours between
      them (none at all for a submission without tasks). */
  lemma ExpandSubmissionHours(submission: DailyLogSubmission, freshIds: seq<string>)
    requires |freshIds| == |submission.tasks|
    ensures SumHours(ExpandSubmission(submission, freshIds)) ==
      if |submission.tasks| > 0 then submission.hours else 0.0
  {
    var r := ExpandSubmission(submission, freshIds);
    SumHoursUniform(r, HoursPerTask(submission));
  }

  /** The whole day as a single log: the first task's fields with every hour. */
  function WholeDayLog(submission: DailyLogSubmission, id: string): ProductivityLog
    requires |submission.tasks| > 0
  {
    TaskLog(submission, submission.tasks[0], id).(hours := submission.hours)
  }

  /** Splitting the day into one log per task does not change utilization:
      it equals that of the same day logged as a single entry. */
  lemma ExpandSubmissionUtilization(before: seq<ProductivityLog>, submission: DailyLogSubmission,
                                    freshIds: seq<string>, after: seq<ProductivityLog>)
    requires |freshIds| == |submission.tasks| > 0
    ensures Utilization(before + ExpandSubmission(submission, freshIds) + after) ==
      Utilization(before + [WholeDayLog(submission, freshIds[0])] + after)
  {
    var parts := ExpandSubmission(submission, freshIds);
    var l := WholeDayLog(submission, freshIds[0]);
    forall p | p in parts ensures p.employeeName == l.employeeName && p.date == l.date {
      assert parts[IndexOf(parts, p)] == p;
    }
    ExpandSubmissionHours(submission, freshIds);
    UtilizationSplitInvariant(before, l, parts, after);
  }

  /** `[...newLogs, ...prevLogs].sort(...)`. */
  function AddLogs(prevLogs: seq<ProductivityLog>, submission: DailyLogSubmission, freshIds: seq<string>): (r: seq<ProductivityLog>)
    requires |freshIds| == |submission.tasks|
    ensures |r| == |prevLogs| + |submission.tasks|
    ensures multiset(r) == multiset(ExpandSubmission(submission, freshIds)) + multiset(prevLogs)
  {
    SortByDateDesc(ExpandSubmission(submission, freshIds) + prevLogs)
  }

  /** Among logs of the same date, the new ones come first, in task order,
      followed by the earlier ones in their previous order. */
  lemma AddLogsNewFirst(prevLogs: seq<ProductivityLog>, submission: DailyLogSubmission, freshIds: seq<string>, day: Day)
    requires |freshIds| == |submission.tasks|
    ensures Only(AddLogs(prevLogs, submission, freshIds), DateKey, day as real) ==
      Only(ExpandSubmission(submission, freshIds), DateKey, day as real) + Only(prevLogs, DateKey, day as real)
  {
    var newLogs := ExpandSubmission(submission, freshIds);
    SortByDateDescStable(newLogs + prevLogs, day);
    OnlyAppend(newLogs, prevLogs, DateKey, day as real);
  }

  /** The initial list: the fixed logs followed by the saved ones, one per id, newest first. */
  function InitialLogs(mockLogs: seq<ProductivityLog>, userAddedLogs: seq<ProductivityLog>): seq<ProductivityLog> {
    SortByDateDesc(DedupeById(mockLogs + userAddedLogs))
  }

  /** The log list held in state. */
  class LogStore {
    var logs: seq<ProductivityLog>

    /** Ids are unique and the list is newest first. */
    ghost predicate Valid()
      reads this
    {
      DistinctIds(logs) && forall i, j :: 0 <= i < j < |logs| ==> logs[i].date >= logs[j].date
    }

    /** The lazy `useState` initializer (the successful branch). */
    constructor (mockLogs: seq<ProductivityLog>, userAddedLogs: seq<ProductivityLog>)
      ensures logs == InitialLogs(mockLogs, userAddedLogs)
      ensures Valid()
    {
      var uniqueLogs := DedupeById(mockLogs + userAddedLogs);
      InitialLogsValid(mockLogs, userAddedLogs);
      logs := SortByDateDesc(uniqueLogs);
    }

    /** addLog: one new log per task, then re-sorted; the ids are supplied fresh. */
    method AddLog(submission: DailyLogSubmission, freshIds: seq<string>)
      requires Valid()
      requires |freshIds| == |submission.tasks| && Distinct(freshIds)
      requires forall id :: id in freshIds ==> id !in IdsOf(logs)
      modifies this
      ensures logs == AddLogs(old(logs), submission, freshIds)
      ensures |logs| == |old(logs)| + |submission.tasks|
      ensures Valid()
    {
      var newLogs := ExpandSubmission(submission, freshIds);
      AddLogsValid(logs, submission, freshIds);
      logs := SortByDateDesc(newLogs + logs);
    }
  }

  lemma InitialLogsValid(mockLogs: seq<ProductivityLog>, userAddedLogs: seq<ProductivityLog>)
    ensures DistinctIds(InitialLogs(mockLogs, userAddedLogs))
  {
    var uniqueLogs := DedupeById(mockLogs + userAddedLogs);
    DistinctIdsPermutation(uniqueLogs, SortByDateDesc(uniqueLogs));
  }

  lemma AddLogsValid(prevLogs: seq<ProductivityLog>, submission: DailyLogSubmission, freshIds: seq<string>)
    requires DistinctIds(prevLogs)
    requires |freshIds| == |submission.tasks| && Distinct(freshIds)
    requires forall id :: id in freshIds ==> id !in IdsOf(prevLogs)
    ensures DistinctIds(AddLogs(prevLogs, submission, freshIds))
  {
    var newLogs := ExpandSubmission(submission, freshIds);
    forall i, j | 0 <= i < |newLogs| && 0 <= j < |prevLogs| ensures newLogs[i].id != prevLogs[j].id {
      var ids := IdsOf(prevLogs);
      assert newLogs[i].id == freshIds[i];
      assert freshIds[i] in freshIds;
      assert freshIds[i] !in ids;
      assert prevLogs[j].id == ids[j] && ids[j] in ids;
    }
    AddedIdsDistinct(newLogs, prevLogs);
    DistinctIdsPermutation(newLogs + prevLogs, AddLogs(prevLogs, submission, freshIds));
  }

  lemma AddedIdsDistinct(newLogs: seq<ProductivityLog>, prevLogs: seq<ProductivityLog>)
    requires DistinctIds(newLogs) && DistinctIds(prevLogs)
    requires forall i, j :: 0 <= i < |newLogs| && 0 <= j < |prevLogs| ==> newLogs[i].id != prevLogs[j].id
    ensures DistinctIds(newLogs + prevLogs)
  {
    var c := newLogs + prevLogs;
    var n := |newLogs|;
    forall i, j | 0 <= i < j < |c| ensures c[i].id != c[j].id {
      if j < n {
        assert c[i] == newLogs[i] && c[j] == newLogs[j];
      } else if i >= n {
        assert c[i] == prevLogs[i - n] && c[j] == prevLogs[j - n];
      } else {
        assert c[i] == newLogs[i] && c[j] == prevLogs[j - n];
      }
    }
  }

  // -------------------------------------------------------------- uniqueValues

  /** The employee selector: every name in the logs once, sorted. */
  function EmployeeOptions(logs: seq<ProductivityLog>): seq<string> {
    SortStrings(Unique(EmployeeNames(logs)))
  }

  /** The department selector: `Object.values(Department).sort()`. */
  function DepartmentOptions(): seq<string> {
    SortStrings(seq(|AllDepartments|, i requires 0 <= i < |AllDepartments| => DepartmentName(AllDepartments[i])))
  }

  /** Exactly the names that occur, each once, in ascending order. */
  lemma EmployeeOptionsShape(logs: seq<ProductivityLog>)
    ensures forall n :: n in EmployeeOptions(logs) <==> exists l :: l in logs && l.employeeName == n
    ensures var r := EmployeeOptions(logs);
      forall i, j :: 0 <= i < j < |r| ==> r[i] != r[j] && LessEq(r[i], r[j])
  {
    var names := EmployeeNames(logs);
    SortStringsDistinct(Unique(names));
    forall n ensures n in names <==> exists l :: l in logs && l.employeeName == n {
      if n in names {
        assert logs[IndexOf(names, n)].employeeName == n;
      }
      if exists l :: l in logs && l.employeeName == n {
        var l :| l in logs && l.employeeName == n;
        assert names[IndexOf(logs, l)] == n;
      }
    }
  }

  /** All twenty department names, each once, in ascending order. */
  lemma DepartmentOptionsShape()
    ensures |DepartmentOptions()| == 20
    ensures forall d :: DepartmentName(d) in DepartmentOptions()
    ensures forall n :: n in DepartmentOptions() ==> DepartmentFromName(n).Some?
    ensures var r := DepartmentOptions();
      forall i, j :: 0 <= i < j < |r| ==> r[i] != r[j] && LessEq(r[i], r[j])
  {
    var names := seq(|AllDepartments|, i requires 0 <= i < |AllDepartments| => DepartmentName(AllDepartments[i]));
    DepartmentEnumeration();
    assert Distinct(names) by {
      forall i, j | 0 <= i < j < |names| ensures names[i] != names[j] {
        DepartmentNameInjective(AllDepartments[i], AllDepartments[j]);
      }
    }
    SortStringsDistinct(names);
    forall d ensures DepartmentName(d) in DepartmentOptions() {
      assert names[DepartmentIndex(d)] == DepartmentName(d);
    }
    forall n | n in DepartmentOptions() ensures DepartmentFromName(n).Some? {
      var k := IndexOf(names, n);
      DepartmentNameRoundTrip(AllDepartments[k]);
    }
  }
}
