/** The daily-log form (pages/LogEntryPage.tsx): the general fields of the
    day, a list of one to ten tasks, an error message and a submitted flag,
    changed by the page's handlers. A submission the form accepts expands
    into logs that the data-quality measure counts as complete. */
module LogEntry {
  import opened Types
  import opened Seqs
  import opened Engine
  import opened Store

  const MaxTasks: nat := 10
  const MaxRating: int := 5
  const DefaultHours: real := 8.0

  const DetailsError := "Please fill all required employee details, hours, and provide a rating."
  const TasksError := "Please ensure every task has a description."

  /** The submission without its tasks; the carried-over text is always
      present in the form, possibly empty. */
  datatype FormData = FormData(
    date: Day,
    employeeName: string,
    employeeId: string,
    department: Department,
    hours: real,
    productivityRating: int,
    blockers: string,
    tasksCarriedOver: string)

  /** The form as first shown: today's date, eight hours, no rating. */
  function InitialFormData(today: Day): FormData {
    FormData(today, "", "", DataManagement, DefaultHours, 0, "", "")
  }

  /** A new task: no description, the Admin category, in progress. */
  function BlankTask(id: string): TaskItem {
    TaskItem(id, "", Admin, InProgress)
  }

  // ---------------------------------------------------------------- edits

  /** One change through the general inputs. Hours arrive already parsed. */
  datatype GeneralEdit =
    | EditDate(date: Day)
    | EditName(name: string)
    | EditEmployeeId(employeeId: string)
    | EditDepartment(department: Department)
    | EditHours(hours: real)
    | EditBlockers(blockers: string)
    | EditCarriedOver(carriedOver: string)

  /** The general handler writes the one named field; the rating has
      buttons of its own and is never touched here. */
  function ApplyGeneral(f: FormData, e: GeneralEdit): (r: FormData)
    ensures r.productivityRating == f.productivityRating
  {
    match e
    case EditDate(d) => f.(date := d)
    case EditName(n) => f.(employeeName := n)
    case EditEmployeeId(i) => f.(employeeId := i)
    case EditDepartment(d) => f.(department := d)
    case EditHours(h) => f.(hours := h)
    case EditBlockers(b) => f.(blockers := b)
    case EditCarriedOver(c) => f.(tasksCarriedOver := c)
  }

  /** One change to a task's inputs. */
  datatype TaskEdit =
    | EditDescription(description: string)
    | EditCategory(category: TaskCategory)
    | EditStatus(status: TaskStatus)

  function ApplyTaskEdit(t: TaskItem, e: TaskEdit): (r: TaskItem)
    ensures r.id == t.id
  {
    match e
    case EditDescription(d) => t.(taskDescription := d)
    case EditCategory(c) => t.(taskCategory := c)
    case EditStatus(s) => t.(taskStatus := s)
  }

  /** The task handler's map: the tasks with the given id are edited, every
      other task is kept, and the list keeps its length and order. */
  function UpdateTask(tasks: seq<TaskItem>, id: string, e: TaskEdit): (r: seq<TaskItem>)
    ensures |r| == |tasks|
    ensures forall i :: 0 <= i < |tasks| ==> r[i].id == tasks[i].id
    ensures forall i :: 0 <= i < |tasks| ==>
      r[i] == (if tasks[i].id == id then ApplyTaskEdit(tasks[i], e) else tasks[i])
  {
    if tasks == [] then []
    else
      [if tasks[0].id == id then ApplyTaskEdit(tasks[0], e) else tasks[0]]
      + UpdateTask(tasks[1..], id, e)
  }

  function OtherThan(id: string): TaskItem -> bool {
    (t: TaskItem) => t.id != id
  }

  /** The remove handler's filter: every task with the given id goes, the
      rest keep their order. */
  function RemoveById(tasks: seq<TaskItem>, id: string): (r: seq<TaskItem>)
    ensures IsSubsequence(r, tasks)
    ensures forall t :: t in r <==> t in tasks && t.id != id
  {
    FilterIsSubsequence(tasks, OtherThan(id));
    Filter(tasks, OtherThan(id))
  }

  ghost predicate DistinctTaskIds(tasks: seq<TaskItem>) {
    forall i, j :: 0 <= i < j < |tasks| ==> tasks[i].id != tasks[j].id
  }

  predicate HasTask(tasks: seq<TaskItem>, id: string) {
    exists i :: 0 <= i < |tasks| && tasks[i].id == id
  }

  /** With distinct ids, removing drops exactly one task when the id is
      present and none otherwise. */
  lemma {:induction false} RemoveByIdCount(tasks: seq<TaskItem>, id: string)
    requires DistinctTaskIds(tasks)
    ensures |RemoveById(tasks, id)| == |tasks| - (if HasTask(tasks, id) then 1 else 0)
    decreases |tasks|
  {
    if tasks != [] {
      var init := tasks[..|tasks| - 1];
      var x := tasks[|tasks| - 1];
      assert tasks == init + [x];
      FilterSnoc(init, x, OtherThan(id));
      assert DistinctTaskIds(init);
      RemoveByIdCount(init, id);
      HasTaskSnoc(init, x, id);
      if x.id == id {
        LastIdFresh(tasks);
      }
    }
  }

  lemma HasTaskSnoc(init: seq<TaskItem>, x: TaskItem, id: string)
    ensures HasTask(init + [x], id) <==> HasTask(init, id) || x.id == id
  {
    var tasks := init + [x];
    if HasTask(tasks, id) && x.id != id {
      var i :| 0 <= i < |tasks| && tasks[i].id == id;
      assert i < |init| && init[i].id == id;
    }
    if HasTask(init, id) {
      var i :| 0 <= i < |init| && init[i].id == id;
      assert tasks[i].id == id;
    }
    assert tasks[|init|] == x;
  }

  /** With distinct ids, the last task's id occurs nowhere before it. */
  lemma LastIdFresh(tasks: seq<TaskItem>)
    requires tasks != [] && DistinctTaskIds(tasks)
    ensures !HasTask(tasks[..|tasks| - 1], tasks[|tasks| - 1].id)
  {
    var init := tasks[..|tasks| - 1];
    forall i | 0 <= i < |init|
      ensures init[i].id != tasks[|tasks| - 1].id
    {
      assert tasks[i].id != tasks[|tasks| - 1].id;
    }
  }

  /** Removing keeps the ids distinct. */
  lemma {:induction false} RemoveByIdDistinct(tasks: seq<TaskItem>, id: string)
    requires DistinctTaskIds(tasks)
    ensures DistinctTaskIds(RemoveById(tasks, id))
    decreases |tasks|
  {
    if tasks != [] {
      var init := tasks[..|tasks| - 1];
      var x := tasks[|tasks| - 1];
      assert tasks == init + [x];
      FilterSnoc(init, x, OtherThan(id));
      assert DistinctTaskIds(init);
      RemoveByIdDistinct(init, id);
      var kept := RemoveById(init, id);
      var r := RemoveById(tasks, id);
      if x.id != id {
        assert r == kept + [x];
        LastIdFresh(tasks);
        assert !HasTask(kept, x.id) by {
          forall i | 0 <= i < |kept|
            ensures kept[i].id != x.id
          {
            assert kept[i] in kept && kept[i] in init;
            var k :| 0 <= k < |init| && init[k] == kept[i];
          }
        }
        DistinctSnoc(kept, x);
      }
    }
  }

  /** A task whose id is new extends a list of distinct ids. */
  lemma DistinctSnoc(tasks: seq<TaskItem>, x: TaskItem)
    requires DistinctTaskIds(tasks) && !HasTask(tasks, x.id)
    ensures DistinctTaskIds(tasks + [x])
  {
    var r := tasks + [x];
    forall i, j | 0 <= i < j < |r|
      ensures r[i].id != r[j].id
    {
      assert r[i] == tasks[i];
      if j < |tasks| {
        assert r[j] == tasks[j];
      }
    }
  }

  // ---------------------------------------------------------------- submit

  /** The employee-details check of the submit handler. */
  predicate DetailsComplete(f: FormData) {
    f.employeeName != "" && f.employeeId != "" && f.hours > 0.0 && f.productivityRating != 0
  }

  /** The task check: no task without a description. */
  predicate TasksDescribed(tasks: seq<TaskItem>) {
    forall i :: 0 <= i < |tasks| ==> tasks[i].taskDescription != ""
  }

  /** The object handed to the submit callback: the form data and the tasks. */
  function Submission(f: FormData, tasks: seq<TaskItem>): DailyLogSubmission {
    DailyLogSubmission(f.employeeName, f.employeeId, f.department, f.date, f.hours,
      f.productivityRating, f.blockers, Some(f.tasksCarriedOver), tasks)
  }

  datatype SubmitOutcome = Rejected(message: string) | Accepted(submission: DailyLogSubmission)

  /** What the submit handler does with the current state: the details
      check first, the task check second, and only then the callback. */
  function Outcome(f: FormData, tasks: seq<TaskItem>): (r: SubmitOutcome)
    ensures r.Accepted? <==> DetailsComplete(f) && TasksDescribed(tasks)
    ensures r == Rejected(DetailsError) <==> !DetailsComplete(f)
    ensures r == Rejected(TasksError) <==> DetailsComplete(f) && !TasksDescribed(tasks)
    ensures r.Accepted? ==> r.submission.tasks == tasks && r.submission.hours == f.hours
  {
    if !DetailsComplete(f) then Rejected(DetailsError)
    else if !TasksDescribed(tasks) then Rejected(TasksError)
    else Accepted(Submission(f, tasks))
  }

  /** The logs an accepted submission turns into are complete forms with
      time recorded: each has a name, an id, a description, a positive rating
      and a positive share of the hours. */
  lemma AcceptedLogsComplete(f: FormData, tasks: seq<TaskItem>, freshIds: seq<string>)
    requires 1 <= |tasks| && |freshIds| == |tasks|
    requires 0 <= f.productivityRating <= MaxRating
    requires Outcome(f, tasks).Accepted?
    ensures forall l :: l in ExpandSubmission(Outcome(f, tasks).submission, freshIds) ==>
      IsCompleteForm(l) && !IsMissingTime(l)
  {
    var submission := Outcome(f, tasks).submission;
    var logs := ExpandSubmission(submission, freshIds);
    var h := HoursPerTask(submission);
    assert h * (|tasks| as real) == f.hours;
    assert h > 0.0;
    forall l | l in logs
      ensures IsCompleteForm(l) && !IsMissingTime(l)
    {
      var i :| 0 <= i < |logs| && logs[i] == l;
      assert l.taskDescription == tasks[i].taskDescription;
    }
  }

  // ---------------------------------------------------------------- the form

  class LogEntryForm {
    var formData: FormData
    var tasks: seq<TaskItem>
    var error: string
    var submitted: bool

    /** One to ten tasks with distinct ids, and a rating that is either
        unset or one of the five buttons. */
    ghost predicate Valid()
      reads this
    {
      && 1 <= |tasks| <= MaxTasks
      && DistinctTaskIds(tasks)
      && 0 <= formData.productivityRating <= MaxRating
    }

    constructor (today: Day, firstTaskId: string)
      ensures formData == InitialFormData(today)
      ensures tasks == [BlankTask(firstTaskId)]
      ensures error == "" && !submitted
      ensures Valid()
    {
      formData := InitialFormData(today);
      tasks := [BlankTask(firstTaskId)];
      error := "";
      submitted := false;
    }

    /** Back to the initial state, with a new first task. */
    method ResetForm(today: Day, firstTaskId: string)
      modifies this
      ensures formData == InitialFormData(today)
      ensures tasks == [BlankTask(firstTaskId)]
      ensures error == "" && !submitted
      ensures Valid()
    {
      formData := InitialFormData(today);
      tasks := [BlankTask(firstTaskId)];
      error := "";
      submitted := false;
    }

    method ChangeGeneral(e: GeneralEdit)
      requires Valid()
      modifies this
      ensures formData == ApplyGeneral(old(formData), e)
      ensures tasks == old(tasks) && error == old(error) && submitted == old(submitted)
      ensures Valid()
    {
      formData := ApplyGeneral(formData, e);
    }

    /** One of the five rating buttons. */
    method SetRating(rating: int)
      requires Valid()
      requires 1 <= rating <= MaxRating
      modifies this
      ensures formData == old(formData).(productivityRating := rating)
      ensures tasks == old(tasks) && error == old(error) && submitted == old(submitted)
      ensures Valid()
    {
      formData := formData.(productivityRating := rating);
    }

    method ChangeTask(id: string, e: TaskEdit)
      requires Valid()
      modifies this
      ensures tasks == UpdateTask(old(tasks), id, e)
      ensures formData == old(formData) && error == old(error) && submitted == old(submitted)
      ensures Valid()
    {
      tasks := UpdateTask(tasks, id, e);
    }

    /** Appends a blank task only while there are fewer than ten. */
    method AddTask(freshId: string)
      requires Valid()
      requires !HasTask(tasks, freshId)
      modifies this
      ensures |old(tasks)| < MaxTasks ==> tasks == old(tasks) + [BlankTask(freshId)]
      ensures |old(tasks)| >= MaxTasks ==> tasks == old(tasks)
      ensures formData == old(formData) && error == old(error) && submitted == old(submitted)
      ensures Valid()
    {
      if |tasks| < MaxTasks {
        var before := tasks;
        tasks := tasks + [BlankTask(freshId)];
        forall i, j | 0 <= i < j < |tasks|
          ensures tasks[i].id != tasks[j].id
        {
          if j == |before| {
            assert tasks[i] == before[i];
          } else {
            assert tasks[i] == before[i] && tasks[j] == before[j];
          }
        }
      }
    }

    /** Removes the task with the given id only while there is more than
        one task, so that the list never becomes empty. */
    method RemoveTask(id: string)
      requires Valid()
      modifies this
      ensures |old(tasks)| > 1 ==> tasks == RemoveById(old(tasks), id)
      ensures |old(tasks)| <= 1 ==> tasks == old(tasks)
      ensures formData == old(formData) && error == old(error) && submitted == old(submitted)
      ensures Valid()
    {
      if |tasks| > 1 {
        RemoveByIdCount(tasks, id);
        RemoveByIdDistinct(tasks, id);
        tasks := RemoveById(tasks, id);
      }
    }

    /** The submit handler: on rejection the message is shown and nothing is
        sent; on acceptance the error is cleared, the submission is sent
        once and the page switches to its confirmation. */
    method Submit() returns (sent: Option<DailyLogSubmission>)
      requires Valid()
      modifies this
      ensures formData == old(formData) && tasks == old(tasks)
      ensures Outcome(formData, tasks).Rejected? ==>
        error == Outcome(formData, tasks).message && !submitted && sent == None
      ensures Outcome(formData, tasks).Accepted? ==>
        error == "" && submitted && sent == Some(Outcome(formData, tasks).submission)
      ensures Valid()
    {
      if !(formData.employeeName != "" && formData.employeeId != "" && formData.hours > 0.0 && formData.productivityRating != 0) {
        error := DetailsError;
        submitted := false;
        return None;
      }
      if exists i :: 0 <= i < |tasks| && tasks[i].taskDescription == "" {
        error := TasksError;
        submitted := false;
        return None;
      }
      error := "";
      sent := Some(Submission(formData, tasks));
      submitted := true;
    }
  }
}
