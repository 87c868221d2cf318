/** The KPI aggregation engine of hooks/useProductivityData.ts: the filter
    stage, the shared utilization formula and the six result groups. Each
    step that the source writes as a loop over counters or dictionaries is a
    method proved equal to a specification function; the `map`/`filter`/`sort`
    expressions are functions. */
module Engine {
  import opened Types
  import opened Seqs
  import opened Sorting

  /** One standard workday. */
  const WorkHoursPerDay: real := 8.0

  // ---------------------------------------------------------------- filter

  /** The dashboard filter; `None` and "" stand for an empty input field. */
  datatype Criteria = Criteria(start: Option<Day>, end: Option<Day>, department: string, employee: string)

  const NoCriteria := Criteria(None, None, "", "")

  /** The filter callback: each non-empty criterion can reject the log. */
  predicate Matches(log: ProductivityLog, c: Criteria) {
    if c.start.Some? && log.date < c.start.value then false
    else if c.end.Some? && log.date > c.end.value then false
    else if c.department != "" && DepartmentName(log.department) != c.department then false
    else if c.employee != "" && log.employeeName != c.employee then false
    else true
  }

  /** `logs.filter(...)`: the order-preserving subsequence of the logs that
      meet every non-empty criterion, each as often as in the input. */
  function FilterLogs(logs: seq<ProductivityLog>, c: Criteria): (r: seq<ProductivityLog>)
    ensures IsSubsequence(r, logs)
    ensures forall x :: x in r <==>
      && x in logs
      && (c.start.Some? ==> c.start.value <= x.date)
      && (c.end.Some? ==> x.date <= c.end.value)
      && (c.department != "" ==> DepartmentName(x.department) == c.department)
      && (c.employee != "" ==> x.employeeName == c.employee)
    ensures forall x :: multiset(r)[x] == if Matches(x, c) then multiset(logs)[x] else 0
  {
    var keep := (l: ProductivityLog) => Matches(l, c);
    FilterIsSubsequence(logs, keep);
    FilterMultiset(logs, keep);
    Filter(logs, keep)
  }

  /** With every criterion empty (the state after "reset filters") every log is kept. */
  lemma FilterNoCriteria(logs: seq<ProductivityLog>)
    ensures FilterLogs(logs, NoCriteria) == logs
  {
    FilterAll(logs, (l: ProductivityLog) => Matches(l, NoCriteria));
  }

  // ------------------------------------------------------------ utilization

  /** `logs.reduce((acc, log) => acc + log.hours, 0)`. */
  function SumHours(logs: seq<ProductivityLog>): real
    decreases |logs|
  {
    if logs == [] then 0.0 else SumHours(logs[..|logs| - 1]) + logs[|logs| - 1].hours
  }

  lemma {:induction false} SumHoursAppend(a: seq<ProductivityLog>, b: seq<ProductivityLog>)
    ensures SumHours(a + b) == SumHours(a) + SumHours(b)
    decreases |b|
  {
    if b == [] {
      assert a + b == a;
    } else {
      var b' := b[..|b| - 1];
      assert (a + b)[..|a + b| - 1] == a + b';
      SumHoursAppend(a, b');
    }
  }

  lemma {:induction false} SumHoursNonNegative(logs: seq<ProductivityLog>)
    requires forall l :: l in logs ==> l.hours >= 0.0
    ensures SumHours(logs) >= 0.0
    decreases |logs|
  {
    if logs != [] {
      assert forall l :: l in logs[..|logs| - 1] ==> l in logs;
      SumHoursNonNegative(logs[..|logs| - 1]);
    }
  }

  /** The distinct (employee, date) pairs: the workdays the logs cover. */
  function WorkDays(logs: seq<ProductivityLog>): set<(string, Day)> {
    set l | l in logs :: (l.employeeName, l.date)
  }

  /** calculateUtilization: logged hours as a percentage of 8 hours per workday. */
  function Utilization(logs: seq<ProductivityLog>): real {
    if |logs| == 0 then 0.0
    else
      var available := (|WorkDays(logs)| as real) * WorkHoursPerDay;
      if available > 0.0 then SumHours(logs) / available * 100.0 else 0.0
  }

  /** 0 for no logs; otherwise the hours over (distinct employee-days x 8), in percent. */
  lemma UtilizationFormula(logs: seq<ProductivityLog>)
    ensures |logs| == 0 ==> Utilization(logs) == 0.0
    ensures |logs| > 0 ==> (|WorkDays(logs)| >= 1 &&
      Utilization(logs) == SumHours(logs) / ((|WorkDays(logs)| as real) * WorkHoursPerDay) * 100.0)
  {
    if |logs| > 0 {
      assert (logs[0].employeeName, logs[0].date) in WorkDays(logs);
    }
  }

  /** With no negative hours, utilization is never negative. */
  lemma UtilizationNonNegative(logs: seq<ProductivityLog>)
    requires forall l :: l in logs ==> l.hours >= 0.0
    ensures Utilization(logs) >= 0.0
  {
    if |logs| > 0 {
      UtilizationFormula(logs);
      SumHoursNonNegative(logs);
      var available := (|WorkDays(logs)| as real) * WorkHoursPerDay;
      assert available > 0.0;
      assert SumHours(logs) / available >= 0.0;
    }
  }

  /** Utilization does not depend on task granularity: replacing one log by
      several logs of the same employee and day with the same total hours
      leaves it unchanged. */
  lemma UtilizationSplitInvariant(before: seq<ProductivityLog>, l: ProductivityLog,
                                  parts: seq<ProductivityLog>, after: seq<ProductivityLog>)
    requires |parts| >= 1
    requires forall p :: p in parts ==> p.employeeName == l.employeeName && p.date == l.date
    requires SumHours(parts) == l.hours
    ensures Utilization(before + parts + after) == Utilization(before + [l] + after)
  {
    SplitSameHours(before, l, parts, after);
    SplitSameWorkDays(before, l, parts, after);
    UtilizationCongruence(before + parts + after, before + [l] + after);
  }

  lemma UtilizationCongruence(x: seq<ProductivityLog>, y: seq<ProductivityLog>)
    requires |x| > 0 && |y| > 0
    requires SumHours(x) == SumHours(y) && WorkDays(x) == WorkDays(y)
    ensures Utilization(x) == Utilization(y)
  {
  }

  lemma SplitSameHours(before: seq<ProductivityLog>, l: ProductivityLog,
                       parts: seq<ProductivityLog>, after: seq<ProductivityLog>)
    requires SumHours(parts) == l.hours
    ensures SumHours(before + parts + after) == SumHours(before + [l] + after)
  {
    SumHoursAppend(before, parts);
    SumHoursAppend(before + parts, after);
    SumHoursAppend(before, [l]);
    SumHoursAppend(before + [l], after);
    assert [l][..0] == [];
  }

  lemma SplitSameWorkDays(before: seq<ProductivityLog>, l: ProductivityLog,
                          parts: seq<ProductivityLog>, after: seq<ProductivityLog>)
    requires |parts| >= 1
    requires forall p :: p in parts ==> p.employeeName == l.employeeName && p.date == l.date
    ensures WorkDays(before + parts + after) == WorkDays(before + [l] + after)
  {
    var split := before + parts + after;
    var whole := before + [l] + after;
    forall x | x in WorkDays(split) ensures x in WorkDays(whole) {
      var y :| y in split && x == (y.employeeName, y.date);
      if y in parts {
        assert l in whole;
      } else {
        assert y in whole;
      }
    }
    forall x | x in WorkDays(whole) ensures x in WorkDays(split) {
      var y :| y in whole && x == (y.employeeName, y.date);
      if y in before || y in after {
        assert y in split;
      } else {
        assert parts[0] in split;
      }
    }
  }

  /** The names that occur in the logs. */
  ghost function NameSet(logs: seq<ProductivityLog>): set<string> {
    set l | l in logs :: l.employeeName
  }

  /** The dates on which employee `n` has at least one log. */
  ghost function DatesOf(logs: seq<ProductivityLog>, n: string): set<Day> {
    set l | l in logs && l.employeeName == n :: l.date
  }

  /** The (name, date) pairs of a name-to-dates dictionary, restricted to `keys`. */
  ghost function PairsOf(m: map<string, set<Day>>, keys: set<string>): set<(string, Day)> {
    set n, d | n in keys && n in m && d in m[n] :: (n, d)
  }

  lemma {:induction false} SecondsCardinality(n: string, pairs: set<(string, Day)>)
    requires forall p :: p in pairs ==> p.0 == n
    ensures |set p | p in pairs :: p.1| == |pairs|
    decreases |pairs|
  {
    if pairs != {} {
      var p0 :| p0 in pairs;
      var rest := pairs - {p0};
      SecondsCardinality(n, rest);
      assert (set p | p in pairs :: p.1) == (set p | p in rest :: p.1) + {p0.1};
      assert p0.1 !in (set p | p in rest :: p.1);
    }
  }

  lemma TaggedCardinality(n: string, dates: set<Day>)
    ensures |set d | d in dates :: (n, d)| == |dates|
  {
    var tagged := set d | d in dates :: (n, d);
    assert (set p | p in tagged :: p.1) == dates by {
      forall d | d in dates ensures d in (set p | p in tagged :: p.1) {
        assert (n, d) in tagged;
      }
    }
    SecondsCardinality(n, tagged);
  }

  lemma PairsOfAddKey(m: map<string, set<Day>>, done: set<string>, n: string)
    requires n in m && n !in done
    ensures |PairsOf(m, done + {n})| == |PairsOf(m, done)| + |m[n]|
  {
    var tagged := set d | d in m[n] :: (n, d);
    assert PairsOf(m, done + {n}) == PairsOf(m, done) + tagged;
    assert PairsOf(m, done) * tagged == {};
    TaggedCardinality(n, m[n]);
  }

  lemma WorkDayStep(s: seq<ProductivityLog>, l: ProductivityLog)
    ensures NameSet(s + [l]) == NameSet(s) + {l.employeeName}
    ensures forall n :: DatesOf(s + [l], n) == DatesOf(s, n) + (if n == l.employeeName then {l.date} else {})
  {
    assert forall x :: x in s + [l] <==> x in s || x == l;
  }

  lemma PairsCoverWorkDays(m: map<string, set<Day>>, logs: seq<ProductivityLog>)
    requires forall n :: n in m <==> n in NameSet(logs)
    requires forall n :: n in m ==> m[n] == DatesOf(logs, n)
    ensures PairsOf(m, m.Keys) == WorkDays(logs)
  {
    forall x | x in WorkDays(logs) ensures x in PairsOf(m, m.Keys) {
      var l :| l in logs && x == (l.employeeName, l.date);
      assert l.employeeName in NameSet(logs);
      assert l.date in DatesOf(logs, l.employeeName);
    }
  }

  /** The `forEach` of calculateUtilization: a dictionary from each name to
      the set of dates on which that employee logged work. */
  method CollectWorkDays(scopedLogs: seq<ProductivityLog>) returns (employeeWorkDays: map<string, set<Day>>)
    ensures forall n :: n in employeeWorkDays <==> n in NameSet(scopedLogs)
    ensures forall n :: n in employeeWorkDays ==> employeeWorkDays[n] == DatesOf(scopedLogs, n)
  {
    employeeWorkDays := map[];
    for i := 0 to |scopedLogs|
      invariant forall n :: n in employeeWorkDays <==> n in NameSet(scopedLogs[..i])
      invariant forall n :: n in employeeWorkDays ==> employeeWorkDays[n] == DatesOf(scopedLogs[..i], n)
    {
      var log := scopedLogs[i];
      assert scopedLogs[..i + 1] == scopedLogs[..i] + [log];
      WorkDayStep(scopedLogs[..i], log);
      if log.employeeName !in employeeWorkDays {
        employeeWorkDays := employeeWorkDays[log.employeeName := {}];
      }
      employeeWorkDays := employeeWorkDays[log.employeeName := employeeWorkDays[log.employeeName] + {log.date}];
    }
    assert scopedLogs[..|scopedLogs|] == scopedLogs;
  }

  /** `Object.values(employeeWorkDays).reduce((acc, dates) => acc + dates.size, 0)`:
      the number of (name, date) pairs in the dictionary. */
  method CountWorkDays(employeeWorkDays: map<string, set<Day>>) returns (totalWorkDays: nat)
    ensures totalWorkDays == |PairsOf(employeeWorkDays, employeeWorkDays.Keys)|
  {
    totalWorkDays := 0;
    var pending := employeeWorkDays.Keys;
    ghost var done: set<string> := {};
    while pending != {}
      invariant pending + done == employeeWorkDays.Keys && pending !! done
      invariant totalWorkDays == |PairsOf(employeeWorkDays, done)|
      decreases |pending|
    {
      var n :| n in pending;
      PairsOfAddKey(employeeWorkDays, done, n);
      totalWorkDays := totalWorkDays + |employeeWorkDays[n]|;
      pending := pending - {n};
      done := done + {n};
    }
  }

  /** calculateUtilization, with a dictionary that has no inherited keys: 0
      for no logs, otherwise the summed hours over the available hours of the
      workdays the dictionary holds. */
  method CalculateUtilization(scopedLogs: seq<ProductivityLog>) returns (u: real)
    ensures u == Utilization(scopedLogs)
  {
    if |scopedLogs| == 0 {
      return 0.0;
    }
    var totalHoursLogged := SumHours(scopedLogs);
    var employeeWorkDays := CollectWorkDays(scopedLogs);
    var totalWorkDays := CountWorkDays(employeeWorkDays);
    PairsCoverWorkDays(employeeWorkDays, scopedLogs);
    var totalAvailableHours := (totalWorkDays as real) * WorkHoursPerDay;
    u := if totalAvailableHours > 0.0 then totalHoursLogged / totalAvailableHours * 100.0 else 0.0;
  }

  // ------------------------------------------------------------ shared counts

  function StatusLogs(logs: seq<ProductivityLog>, st: TaskStatus): seq<ProductivityLog> {
    Filter(logs, (l: ProductivityLog) => l.taskStatus == st)
  }

  /** The number of logs whose status is Complete. */
  function CompletedCount(logs: seq<ProductivityLog>): (n: nat)
    ensures n <= |logs|
  {
    |StatusLogs(logs, Complete)|
  }

  /** `total > 0 ? (part / total) * 100 : 0`. */
  function Rate(part: nat, total: nat): (r: real)
    ensures total == 0 ==> r == 0.0
    ensures total > 0 ==> r * (total as real) == (part as real) * 100.0
    ensures part <= total ==> 0.0 <= r <= 100.0
  {
    if total > 0 then
      var q := (part as real) / (total as real);
      assert part <= total ==> q <= 1.0 by {
        if part <= total {
          assert q * (total as real) == part as real;
        }
      }
      q * 100.0
    else 0.0
  }

  /** `count > 0 ? sum / count : 0`. */
  function Average(sum: real, count: nat): (r: real)
    ensures count == 0 ==> r == 0.0
    ensures count > 0 ==> r * (count as real) == sum
  {
    if count > 0 then sum / (count as real) else 0.0
  }

  // ------------------------------------------------- departmental performance

  function DepartmentLogs(logs: seq<ProductivityLog>, d: Department): seq<ProductivityLog> {
    Filter(logs, (l: ProductivityLog) => l.department == d)
  }

  /** The table row of one department, computed over its logs. */
  function DepartmentRow(logs: seq<ProductivityLog>, d: Department): (s: DepartmentStats)
    ensures s.department == d
    ensures s.totalTasks == |DepartmentLogs(logs, d)|
    ensures s.totalTasks == 0 ==> s.completionRate == 0.0 && s.avgTaskDuration == 0.0 && s.utilizationRate == 0.0
    ensures 0.0 <= s.completionRate <= 100.0
    ensures s.completionRate == Rate(CompletedCount(DepartmentLogs(logs, d)), s.totalTasks)
    ensures s.avgTaskDuration == Average(SumHours(DepartmentLogs(logs, d)), s.totalTasks)
    ensures s.utilizationRate == Utilization(DepartmentLogs(logs, d))
  {
    var deptLogs := DepartmentLogs(logs, d);
    var totalTasks := |deptLogs|;
    DepartmentStats(
      d,
      totalTasks,
      Rate(CompletedCount(deptLogs), totalTasks),
      Average(SumHours(deptLogs), totalTasks),
      Utilization(deptLogs))
  }

  function TotalTasksKey(s: DepartmentStats): real {
    s.totalTasks as real
  }

  function DepartmentRank(s: DepartmentStats): int {
    DepartmentIndex(s.department)
  }

  /** `Object.values(Department).map(...)`: one row per member, in declaration order. */
  function DepartmentRows(logs: seq<ProductivityLog>): seq<DepartmentStats> {
    seq(|AllDepartments|, i requires 0 <= i < |AllDepartments| => DepartmentRow(logs, AllDepartments[i]))
  }

  /** departmentalPerformance: the rows sorted by totalTasks, descending (stable). */
  function DepartmentalPerformance(logs: seq<ProductivityLog>): seq<DepartmentStats> {
    SortDesc(DepartmentRows(logs), TotalTasksKey)
  }

  /** One entry per department, and each entry is that department's row. */
  lemma DepartmentalPerformanceMembers(logs: seq<ProductivityLog>)
    ensures |DepartmentalPerformance(logs)| == |AllDepartments| == 20
    ensures forall d :: DepartmentRow(logs, d) in DepartmentalPerformance(logs)
    ensures forall s :: s in DepartmentalPerformance(logs) ==> s == DepartmentRow(logs, s.department)
  {
    var rows := DepartmentRows(logs);
    assert |AllDepartments| == 20;
    SortDescMembers(rows, TotalTasksKey);
    forall d ensures DepartmentRow(logs, d) in DepartmentalPerformance(logs) {
      DepartmentRowListed(logs, d);
    }
    forall s | s in DepartmentalPerformance(logs)
      ensures s == DepartmentRow(logs, s.department)
    {
      ListedRowIsOwn(logs, s);
    }
  }

  lemma DepartmentRowListed(logs: seq<ProductivityLog>, d: Department)
    ensures DepartmentRow(logs, d) in DepartmentRows(logs)
  {
    assert DepartmentRows(logs)[DepartmentIndex(d)] == DepartmentRow(logs, d);
  }

  lemma ListedRowIsOwn(logs: seq<ProductivityLog>, s: DepartmentStats)
    requires s in DepartmentRows(logs)
    ensures s == DepartmentRow(logs, s.department)
  {
    var rows := DepartmentRows(logs);
    var i :| 0 <= i < |rows| && rows[i] == s;
    assert s == DepartmentRow(logs, AllDepartments[i]);
  }

  /** No department appears twice. */
  lemma DepartmentalPerformanceDistinct(logs: seq<ProductivityLog>)
    ensures var r := DepartmentalPerformance(logs);
      forall i, j :: 0 <= i < j < |r| ==> r[i].department != r[j].department
  {
    var r := DepartmentalPerformance(logs);
    DepartmentalPerformanceMembers(logs);
    forall i, j | 0 <= i < j < |r| ensures r[i].department != r[j].department {
      if r[i].department == r[j].department {
        assert r[i] in r && r[j] in r;
        assert r[i] == r[j];
        DepartmentRowsOccurOnce(logs, r[i]);
        Duplicate(r, i, j);
      }
    }
  }

  /** Each row occurs at most once in the sorted departmental table. */
  lemma DepartmentRowsOccurOnce(logs: seq<ProductivityLog>, s: DepartmentStats)
    ensures multiset(DepartmentalPerformance(logs))[s] <= 1
  {
    var rows := DepartmentRows(logs);
    assert Distinct(rows) by {
      forall i, j | 0 <= i < j < |rows| ensures rows[i] != rows[j] {
        DepartmentEnumeration();
        assert rows[i].department == AllDepartments[i];
      }
    }
    DistinctCount(rows, s);
  }

  /** Sorted by totalTasks descending; ties keep declaration order. */
  lemma DepartmentalPerformanceOrder(logs: seq<ProductivityLog>)
    ensures var r := DepartmentalPerformance(logs);
      forall i, j :: 0 <= i < j < |r| ==> r[i].totalTasks >= r[j].totalTasks
    ensures var r := DepartmentalPerformance(logs);
      forall i, j :: 0 <= i < j < |r| && r[i].totalTasks == r[j].totalTasks ==>
        DepartmentIndex(r[i].department) < DepartmentIndex(r[j].department)
  {
    var rows := DepartmentRows(logs);
    var r := DepartmentalPerformance(logs);
    assert RankIncreasing(rows, DepartmentRank) by {
      forall i, j | 0 <= i < j < |rows| ensures DepartmentRank(rows[i]) < DepartmentRank(rows[j]) {
        DepartmentEnumeration();
        assert DepartmentIndex(AllDepartments[i]) == i && DepartmentIndex(AllDepartments[j]) == j;
      }
    }
    SortDescTiesByRank(rows, TotalTasksKey, DepartmentRank);
    forall i, j | 0 <= i < j < |r| ensures r[i].totalTasks >= r[j].totalTasks {
      assert TotalTasksKey(r[i]) >= TotalTasksKey(r[j]);
    }
    forall i, j | 0 <= i < j < |r| && r[i].totalTasks == r[j].totalTasks
      ensures DepartmentIndex(r[i].department) < DepartmentIndex(r[j].department)
    {
      assert TotalTasksKey(r[i]) == TotalTasksKey(r[j]);
      assert DepartmentRank(r[i]) < DepartmentRank(r[j]);
    }
  }

  // ------------------------------------------------------- executive summary

  predicate IsActive(s: DepartmentStats) {
    s.totalTasks > 0
  }

  function CompletionKey(s: DepartmentStats): real {
    s.completionRate
  }

  /** `sortedDeptsByCompletion`: the active rows, best completion rate first (stable). */
  function CompletionRanking(depts: seq<DepartmentStats>): seq<DepartmentStats> {
    SortDesc(Filter(depts, IsActive), CompletionKey)
  }

  const NotAvailable := "N/A"

  /** `sortedDeptsByCompletion[0].department`, or "N/A" with no active department. */
  function TopDepartment(ranking: seq<DepartmentStats>): string {
    if |ranking| > 0 then DepartmentName(ranking[0].department) else NotAvailable
  }

  /** The last entry's department, or "N/A" with no active department. */
  function LeastDepartment(ranking: seq<DepartmentStats>): string {
    if |ranking| > 0 then DepartmentName(ranking[|ranking| - 1].department) else NotAvailable
  }

  /** The headline figures over the filtered logs. */
  function ExecutiveSummary(filtered: seq<ProductivityLog>): (e: ExecutiveStats)
    ensures e.totalTasks == |filtered|
    ensures e.completedTasks == CompletedCount(filtered) <= e.totalTasks
    ensures 0.0 <= e.completionRate <= 100.0
    ensures filtered == [] ==> e.completionRate == 0.0 && e.avgTaskDuration == 0.0 && e.overallUtilizationRate == 0.0
    ensures filtered != [] ==> e.avgTaskDuration == SumHours(filtered) / (|filtered| as real)
    ensures e.completionRate == Rate(CompletedCount(filtered), |filtered|)
    ensures e.overallUtilizationRate == Utilization(filtered)
    ensures e.reworkRate == 0.0
  {
    var totalTasks := |filtered|;
    var completedTasks := CompletedCount(filtered);
    var ranking := CompletionRanking(DepartmentalPerformance(filtered));
    var avg := Average(SumHours(filtered), totalTasks);
    ExecutiveStats(
      totalTasks,
      completedTasks,
      Rate(completedTasks, totalTasks),
      avg,
      TopDepartment(ranking),
      LeastDepartment(ranking),
      Utilization(filtered),
      0.0)
  }

  /** A department with at least one filtered log has an active row. */
  lemma ActiveRowOf(filtered: seq<ProductivityLog>, l: ProductivityLog)
    requires l in filtered
    ensures DepartmentRow(filtered, l.department) in Filter(DepartmentalPerformance(filtered), IsActive)
  {
    DepartmentalPerformanceMembers(filtered);
    assert l in DepartmentLogs(filtered, l.department);
  }

  /** No filtered log: no department row counts anything. */
  lemma NoActiveRow(filtered: seq<ProductivityLog>)
    requires filtered == []
    ensures Filter(DepartmentalPerformance(filtered), IsActive) == []
  {
    DepartmentalPerformanceMembers(filtered);
    FilterNone(DepartmentalPerformance(filtered), IsActive);
  }

  /** The best and worst department are "N/A" exactly when no log passed the filter. */
  lemma ExecutiveNotAvailable(filtered: seq<ProductivityLog>)
    ensures ExecutiveSummary(filtered).topPerformingDept == NotAvailable <==> filtered == []
    ensures ExecutiveSummary(filtered).leastPerformingDept == NotAvailable <==> filtered == []
  {
    var ranking := CompletionRanking(DepartmentalPerformance(filtered));
    ExecutiveNames(filtered);
    RankingEmpty(filtered);
    RankingNamesAvailable(ranking);
  }

  /** The summary names the ends of the completion ranking. */
  lemma ExecutiveNames(filtered: seq<ProductivityLog>)
    ensures var ranking := CompletionRanking(DepartmentalPerformance(filtered));
      ExecutiveSummary(filtered).topPerformingDept == TopDepartment(ranking) &&
      ExecutiveSummary(filtered).leastPerformingDept == LeastDepartment(ranking)
  {
  }

  /** The ranking is empty exactly when no log passed the filter. */
  lemma RankingEmpty(filtered: seq<ProductivityLog>)
    ensures CompletionRanking(DepartmentalPerformance(filtered)) == [] <==> filtered == []
  {
    var act := Filter(DepartmentalPerformance(filtered), IsActive);
    if filtered == [] {
      NoActiveRow(filtered);
    } else {
      SomeDepartmentActive(filtered);
      SortDescMembers(act, CompletionKey);
      assert act[0] in CompletionRanking(DepartmentalPerformance(filtered));
    }
  }

  /** No department is called "N/A", so a ranking's ends are "N/A" only when it is empty. */
  lemma RankingNamesAvailable(ranking: seq<DepartmentStats>)
    ensures TopDepartment(ranking) == NotAvailable <==> ranking == []
    ensures LeastDepartment(ranking) == NotAvailable <==> ranking == []
  {
    if ranking != [] {
      DepartmentNameRoundTrip(ranking[0].department);
      DepartmentNameRoundTrip(ranking[|ranking| - 1].department);
    }
  }

  /** The departmental table has no repeated row. */
  lemma DepartmentalPerformanceRowsDistinct(filtered: seq<ProductivityLog>)
    ensures Distinct(DepartmentalPerformance(filtered))
  {
    DepartmentalPerformanceDistinct(filtered);
  }

  /** Some log in view makes some department active. */
  lemma SomeDepartmentActive(filtered: seq<ProductivityLog>)
    requires filtered != []
    ensures Filter(DepartmentalPerformance(filtered), IsActive) != []
  {
    ActiveRowOf(filtered, filtered[0]);
  }

  /** The department named best has the highest completion rate of all
      active departments; among equal rates it is the one listed first in
      the departmental table (more tasks, then declaration order). */
  lemma ExecutiveTopIsBest(filtered: seq<ProductivityLog>)
    requires filtered != []
    ensures var depts := DepartmentalPerformance(filtered);
      exists s :: s in depts && IsActive(s) &&
        ExecutiveSummary(filtered).topPerformingDept == DepartmentName(s.department) &&
        forall t :: t in depts && IsActive(t) ==>
          t.completionRate <= s.completionRate &&
          (t.completionRate == s.completionRate ==> IndexOf(depts, s) <= IndexOf(depts, t))
  {
    SomeDepartmentActive(filtered);
    DepartmentalPerformanceRowsDistinct(filtered);
    RankingFirstIsBest(DepartmentalPerformance(filtered));
  }

  /** The department named worst has the lowest completion rate of all
      active departments; among equal rates it is the one listed last. */
  lemma ExecutiveLeastIsWorst(filtered: seq<ProductivityLog>)
    requires filtered != []
    ensures var depts := DepartmentalPerformance(filtered);
      exists s :: s in depts && IsActive(s) &&
        ExecutiveSummary(filtered).leastPerformingDept == DepartmentName(s.department) &&
        forall t :: t in depts && IsActive(t) ==>
          s.completionRate <= t.completionRate &&
          (t.completionRate == s.completionRate ==> IndexOf(depts, t) <= IndexOf(depts, s))
  {
    SomeDepartmentActive(filtered);
    DepartmentalPerformanceRowsDistinct(filtered);
    RankingLastIsWorst(DepartmentalPerformance(filtered));
  }

  /** With some log in view, the top department's completion rate is at
      least the least department's. */
  lemma ExecutiveTopNotWorse(filtered: seq<ProductivityLog>)
    requires filtered != []
    ensures var depts := DepartmentalPerformance(filtered); var e := ExecutiveSummary(filtered);
      exists s, t :: s in depts && t in depts && IsActive(s) && IsActive(t) &&
        e.topPerformingDept == DepartmentName(s.department) &&
        e.leastPerformingDept == DepartmentName(t.department) &&
        t.completionRate <= s.completionRate
  {
    var depts := DepartmentalPerformance(filtered);
    var e := ExecutiveSummary(filtered);
    ExecutiveTopIsBest(filtered);
    var s :| s in depts && IsActive(s) && e.topPerformingDept == DepartmentName(s.department) &&
      forall t :: t in depts && IsActive(t) ==> t.completionRate <= s.completionRate;
    ExecutiveLeastIsWorst(filtered);
    var t :| t in depts && IsActive(t) && e.leastPerformingDept == DepartmentName(t.department);
    assert t.completionRate <= s.completionRate;
  }

  lemma RankingFirstIsBest(depts: seq<DepartmentStats>)
    requires Distinct(depts) && Filter(depts, IsActive) != []
    ensures var s := CompletionRanking(depts)[0];
      s in depts && IsActive(s) && TopDepartment(CompletionRanking(depts)) == DepartmentName(s.department) &&
      forall t :: t in depts && IsActive(t) ==>
        t.completionRate <= s.completionRate &&
        (t.completionRate == s.completionRate ==> IndexOf(depts, s) <= IndexOf(depts, t))
  {
    var act := Filter(depts, IsActive);
    var ranking := CompletionRanking(depts);
    SortDescMembers(act, CompletionKey);
    assert ranking[0] in ranking;
    forall t | t in depts && IsActive(t)
      ensures t.completionRate <= ranking[0].completionRate
      ensures t.completionRate == ranking[0].completionRate ==> IndexOf(depts, ranking[0]) <= IndexOf(depts, t)
    {
      FirstNotBelow(depts, t);
    }
  }

  /** Every active department has a place in the ranking. */
  lemma RankedAt(depts: seq<DepartmentStats>, t: DepartmentStats) returns (k: nat)
    requires t in depts && IsActive(t)
    ensures k < |CompletionRanking(depts)| && CompletionRanking(depts)[k] == t
  {
    var act := Filter(depts, IsActive);
    SortDescMembers(act, CompletionKey);
    assert t in act;
    k := IndexOf(CompletionRanking(depts), t);
  }

  /** Any active department ranks no higher than the first entry. */
  lemma FirstNotBelow(depts: seq<DepartmentStats>, t: DepartmentStats)
    requires Distinct(depts) && t in depts && IsActive(t)
    ensures var ranking := CompletionRanking(depts);
      |ranking| > 0 &&
      t.completionRate <= ranking[0].completionRate &&
      (t.completionRate == ranking[0].completionRate ==> IndexOf(depts, ranking[0]) <= IndexOf(depts, t))
  {
    var ranking := CompletionRanking(depts);
    var k := RankedAt(depts, t);
    if k > 0 {
      SortedDescAt(ranking, CompletionKey, 0, k);
      assert CompletionKey(ranking[0]) >= CompletionKey(t);
      if t.completionRate == ranking[0].completionRate {
        RankingTies(depts, 0, k);
      }
    }
  }

  lemma RankingLastIsWorst(depts: seq<DepartmentStats>)
    requires Distinct(depts) && Filter(depts, IsActive) != []
    ensures var r := CompletionRanking(depts); var s := r[|r| - 1];
      s in depts && IsActive(s) && LeastDepartment(r) == DepartmentName(s.department) &&
      forall t :: t in depts && IsActive(t) ==>
        s.completionRate <= t.completionRate &&
        (t.completionRate == s.completionRate ==> IndexOf(depts, t) <= IndexOf(depts, s))
  {
    var act := Filter(depts, IsActive);
    var ranking := CompletionRanking(depts);
    SortDescMembers(act, CompletionKey);
    var last := |ranking| - 1;
    var s := ranking[last];
    forall t | t in depts && IsActive(t)
      ensures s.completionRate <= t.completionRate
      ensures t.completionRate == s.completionRate ==> IndexOf(depts, t) <= IndexOf(depts, s)
    {
      assert t in act;
      assert t in ranking;
      var k := IndexOf(ranking, t);
      assert k <= last && ranking[k] == t;
      if k < last {
        SortedDescAt(ranking, CompletionKey, k, last);
        if t.completionRate == s.completionRate {
          RankingTies(depts, k, last);
        }
      }
    }
  }

  lemma SortedDescAt<T>(r: seq<T>, key: T -> real, i: nat, j: nat)
    requires SortedDesc(r, key) && i < j < |r|
    ensures key(r[i]) >= key(r[j])
  {
  }

  /** Equal completion rates keep the order of the departmental table. */
  lemma RankingTies(depts: seq<DepartmentStats>, i: nat, j: nat)
    requires Distinct(depts)
    requires i < j < |CompletionRanking(depts)|
    requires CompletionRanking(depts)[i].completionRate == CompletionRanking(depts)[j].completionRate
    ensures IndexOf(depts, CompletionRanking(depts)[i]) < IndexOf(depts, CompletionRanking(depts)[j])
  {
    var act := Filter(depts, IsActive);
    var rank := (s: DepartmentStats) => IndexOf(depts, s) as int;
    FilterIndexIncreasing(depts, IsActive);
    assert RankIncreasing(act, rank) by {
      forall i, j | 0 <= i < j < |act| ensures rank(act[i]) < rank(act[j]) {
      }
    }
    SortDescTiesByRank(act, CompletionKey, rank);
    var r := CompletionRanking(depts);
    assert CompletionKey(r[i]) == CompletionKey(r[j]);
    assert rank(r[i]) < rank(r[j]);
  }

  // ---------------------------------------------------- employee leaderboard

  /** At most this many employees appear on the leaderboard. */
  const LeaderboardSize: nat := 10

  /** The employee name of every log, in log order. */
  function EmployeeNames(logs: seq<ProductivityLog>): (r: seq<string>)
    ensures |r| == |logs|
    ensures forall i :: 0 <= i < |logs| ==> r[i] == logs[i].employeeName
    decreases |logs|
  {
    if logs == [] then [] else EmployeeNames(logs[..|logs| - 1]) + [logs[|logs| - 1].employeeName]
  }

  /** The logs of one employee, in log order. */
  function EmployeeLogs(logs: seq<ProductivityLog>, name: string): seq<ProductivityLog>
    decreases |logs|
  {
    if logs == [] then []
    else
      var init := EmployeeLogs(logs[..|logs| - 1], name);
      if logs[|logs| - 1].employeeName == name then init + [logs[|logs| - 1]] else init
  }

  lemma {:induction false} EmployeeLogsMembers(logs: seq<ProductivityLog>, name: string)
    ensures forall l :: l in EmployeeLogs(logs, name) <==> l in logs && l.employeeName == name
    decreases |logs|
  {
    if logs != [] {
      var init := logs[..|logs| - 1];
      EmployeeLogsMembers(init, name);
      assert logs == init + [logs[|logs| - 1]];
    }
  }

  /** The accumulator the source keeps per employee name. */
  datatype EmployeeMetrics = EmployeeMetrics(completedTasks: nat, totalDuration: real, logCount: nat, logs: seq<ProductivityLog>)

  const NoMetrics := EmployeeMetrics(0, 0.0, 0, [])

  /** The metrics of one employee once every log has been seen. */
  function MetricsOf(logs: seq<ProductivityLog>, name: string): (m: EmployeeMetrics)
    ensures m.logCount == |m.logs| && m.completedTasks <= m.logCount
  {
    var own := EmployeeLogs(logs, name);
    EmployeeMetrics(CompletedCount(own), SumHours(own), |own|, own)
  }

  /** One leaderboard row built from an employee's metrics. */
  function EmployeeRow(name: string, data: EmployeeMetrics): EmployeeStats {
    EmployeeStats(name, data.completedTasks, Average(data.totalDuration, data.logCount), Utilization(data.logs))
  }

  function EmployeeStatsOf(logs: seq<ProductivityLog>, name: string): EmployeeStats {
    EmployeeRow(name, MetricsOf(logs, name))
  }

  /** `Object.entries(employeeMetrics).map(...)`: one row per employee, in
      the order in which the names were first met. */
  function EmployeeRows(logs: seq<ProductivityLog>): seq<EmployeeStats> {
    var names := Unique(EmployeeNames(logs));
    seq(|names|, i requires 0 <= i < |names| => EmployeeStatsOf(logs, names[i]))
  }

  /** The rows before sorting: one per distinct employee name, in the order
      in which the names are first met, each holding that employee's
      statistics; every employee with a log has a row. */
  lemma EmployeeRowsShape(logs: seq<ProductivityLog>)
    ensures var r := EmployeeRows(logs);
      forall i :: 0 <= i < |r| ==>
        r[i].name in EmployeeNames(logs) && r[i] == EmployeeStatsOf(logs, r[i].name)
    ensures var r := EmployeeRows(logs);
      forall i, j :: 0 <= i < j < |r| ==>
        IndexOf(EmployeeNames(logs), r[i].name) < IndexOf(EmployeeNames(logs), r[j].name)
    ensures var r := EmployeeRows(logs);
      forall i, j :: 0 <= i < j < |r| ==> r[i].name != r[j].name
    ensures forall l :: l in logs ==> EmployeeStatsOf(logs, l.employeeName) in EmployeeRows(logs)
  {
    var all := EmployeeNames(logs);
    var names := Unique(all);
    var r := EmployeeRows(logs);
    UniqueFirstEncounterOrder(all);
    forall i, j | 0 <= i < j < |r|
      ensures IndexOf(all, r[i].name) < IndexOf(all, r[j].name)
    {
      assert r[i].name == names[i] && r[j].name == names[j];
    }
    forall l | l in logs ensures EmployeeStatsOf(logs, l.employeeName) in r {
      assert all[IndexOf(logs, l)] == l.employeeName;
      var k := IndexOf(names, l.employeeName);
      assert r[k] == EmployeeStatsOf(logs, l.employeeName);
    }
  }

  function CompletedKey(s: EmployeeStats): real {
    s.completedTasks as real
  }

  /** employeeLeaderboard: the rows sorted by completed tasks (stable), first ten. */
  function EmployeeLeaderboard(logs: seq<ProductivityLog>): seq<EmployeeStats> {
    Take(SortDesc(EmployeeRows(logs), CompletedKey), LeaderboardSize)
  }

  /** At most ten rows, fewer only when there are fewer employees; every row
      is the statistics of an employee with at least one log. */
  lemma LeaderboardEntries(logs: seq<ProductivityLog>)
    ensures var r := EmployeeLeaderboard(logs);
      |r| <= LeaderboardSize && (|r| < LeaderboardSize ==> |r| == |Unique(EmployeeNames(logs))|)
    ensures forall s :: s in EmployeeLeaderboard(logs) ==>
      s == EmployeeStatsOf(logs, s.name) && EmployeeLogs(logs, s.name) != [] &&
      s.completedTasks <= |EmployeeLogs(logs, s.name)|
  {
    var names := Unique(EmployeeNames(logs));
    var rows := EmployeeRows(logs);
    var sorted := SortDesc(rows, CompletedKey);
    SortDescMembers(rows, CompletedKey);
    forall s | s in EmployeeLeaderboard(logs)
      ensures s == EmployeeStatsOf(logs, s.name) && EmployeeLogs(logs, s.name) != []
      ensures s.completedTasks <= |EmployeeLogs(logs, s.name)|
    {
      assert s in sorted;
      var k := IndexOf(rows, s);
      assert names[k] in EmployeeNames(logs);
      var i := IndexOf(EmployeeNames(logs), names[k]);
      EmployeeLogsMembers(logs, names[k]);
      assert logs[i] in EmployeeLogs(logs, names[k]);
    }
  }

  /** No employee appears twice. */
  lemma LeaderboardDistinct(logs: seq<ProductivityLog>)
    ensures var r := EmployeeLeaderboard(logs);
      forall i, j :: 0 <= i < j < |r| ==> r[i].name != r[j].name
  {
    var rows := EmployeeRows(logs);
    var sorted := SortDesc(rows, CompletedKey);
    var r := EmployeeLeaderboard(logs);
    EmployeeRowNamesDistinct(logs);
    SortDescMembers(rows, CompletedKey);
    SortDescDistinct(rows, CompletedKey);
    forall i, j | 0 <= i < j < |r| ensures r[i].name != r[j].name {
      assert r[i] == sorted[i] && r[j] == sorted[j];
      assert sorted[i] in rows && sorted[j] in rows;
    }
  }

  /** Each employee has one row: the rows' names are pairwise distinct. */
  lemma EmployeeRowNamesDistinct(logs: seq<ProductivityLog>)
    ensures var rows := EmployeeRows(logs);
      forall x, y :: x in rows && y in rows && x.name == y.name ==> x == y
  {
    var names := Unique(EmployeeNames(logs));
    var rows := EmployeeRows(logs);
    forall x, y | x in rows && y in rows && x.name == y.name ensures x == y {
      var i :| 0 <= i < |rows| && rows[i] == x;
      var j :| 0 <= j < |rows| && rows[j] == y;
      assert rows[i].name == names[i] && rows[j].name == names[j];
    }
  }

  /** Sorted by completed tasks, descending; equal counts keep the order in
      which the employees were first met in the logs. */
  lemma LeaderboardOrder(logs: seq<ProductivityLog>)
    ensures var r := EmployeeLeaderboard(logs);
      forall i, j :: 0 <= i < j < |r| ==> r[i].completedTasks >= r[j].completedTasks
    ensures var r := EmployeeLeaderboard(logs);
      forall i, j :: 0 <= i < j < |r| && r[i].completedTasks == r[j].completedTasks ==>
        IndexOf(EmployeeNames(logs), r[i].name) < IndexOf(EmployeeNames(logs), r[j].name)
  {
    var all := EmployeeNames(logs);
    var names := Unique(all);
    var rows := EmployeeRows(logs);
    var sorted := SortDesc(rows, CompletedKey);
    var r := EmployeeLeaderboard(logs);
    var rank := (s: EmployeeStats) => IndexOf(all, s.name) as int;
    UniqueFirstEncounterOrder(all);
    assert RankIncreasing(rows, rank) by {
      forall i, j | 0 <= i < j < |rows| ensures rank(rows[i]) < rank(rows[j]) {
        assert rows[i].name == names[i] && rows[j].name == names[j];
      }
    }
    SortDescTiesByRank(rows, CompletedKey, rank);
    forall i, j | 0 <= i < j < |r| ensures r[i].completedTasks >= r[j].completedTasks {
      assert r[i] == sorted[i] && r[j] == sorted[j];
      assert CompletedKey(sorted[i]) >= CompletedKey(sorted[j]);
    }
    forall i, j | 0 <= i < j < |r| && r[i].completedTasks == r[j].completedTasks
      ensures IndexOf(all, r[i].name) < IndexOf(all, r[j].name)
    {
      assert r[i] == sorted[i] && r[j] == sorted[j];
      assert CompletedKey(sorted[i]) == CompletedKey(sorted[j]);
      assert rank(sorted[i]) < rank(sorted[j]);
    }
  }

  /** An employee left off the leaderboard means the board is full and
      every listed employee completed at least as many tasks. */
  lemma LeaderboardTop(logs: seq<ProductivityLog>, name: string)
    requires name in EmployeeNames(logs)
    requires EmployeeStatsOf(logs, name) !in EmployeeLeaderboard(logs)
    ensures |EmployeeLeaderboard(logs)| == LeaderboardSize
    ensures forall s :: s in EmployeeLeaderboard(logs) ==> s.completedTasks >= EmployeeStatsOf(logs, name).completedTasks
  {
    var names := Unique(EmployeeNames(logs));
    var rows := EmployeeRows(logs);
    var sorted := SortDesc(rows, CompletedKey);
    var r := EmployeeLeaderboard(logs);
    var me := EmployeeStatsOf(logs, name);
    SortDescMembers(rows, CompletedKey);
    assert rows[IndexOf(names, name)] == me;
    assert me in sorted;
    var k := IndexOf(sorted, me);
    assert sorted[k] == me;
    assert k >= |r|;
    forall s | s in r ensures s.completedTasks >= me.completedTasks {
      var i := IndexOf(r, s);
      assert r[i] == sorted[i];
      SortedDescAt(sorted, CompletedKey, i, k);
    }
  }

  /** One log folded into an employee's metrics, as the loop body does. */
  function AddToMetrics(m: EmployeeMetrics, log: ProductivityLog): EmployeeMetrics {
    EmployeeMetrics(
      if log.taskStatus == Complete then m.completedTasks + 1 else m.completedTasks,
      m.totalDuration + log.hours,
      m.logCount + 1,
      m.logs + [log])
  }

  /** The loop body's increments on one employee's entry. */
  method AccumulateLog(entry: EmployeeMetrics, log: ProductivityLog) returns (m: EmployeeMetrics)
    ensures m == AddToMetrics(entry, log)
  {
    m := entry;
    if log.taskStatus == Complete {
      m := m.(completedTasks := m.completedTasks + 1);
    }
    m := m.(totalDuration := m.totalDuration + log.hours);
    m := m.(logCount := m.logCount + 1);
    m := m.(logs := m.logs + [log]);
  }

  lemma EmployeeLogsStep(prefix: seq<ProductivityLog>, log: ProductivityLog, name: string)
    ensures EmployeeLogs(prefix + [log], name) ==
      EmployeeLogs(prefix, name) + (if log.employeeName == name then [log] else [])
  {
    var s := prefix + [log];
    assert s[..|s| - 1] == prefix;
  }

  lemma CompletedStep(own: seq<ProductivityLog>, log: ProductivityLog)
    ensures CompletedCount(own + [log]) == CompletedCount(own) + (if log.taskStatus == Complete then 1 else 0)
  {
    var s := own + [log];
    assert s[..|s| - 1] == own;
  }

  lemma SumHoursStep(own: seq<ProductivityLog>, log: ProductivityLog)
    ensures SumHours(own + [log]) == SumHours(own) + log.hours
  {
    var s := own + [log];
    assert s[..|s| - 1] == own;
  }

  lemma MetricsStep(prefix: seq<ProductivityLog>, log: ProductivityLog, name: string)
    ensures MetricsOf(prefix + [log], name) ==
      if log.employeeName == name then AddToMetrics(MetricsOf(prefix, name), log) else MetricsOf(prefix, name)
  {
    if log.employeeName == name {
      OwnMetricsStep(prefix, log);
    } else {
      OtherMetricsStep(prefix, log, name);
    }
  }

  /** The log's own employee gains that log's increments. */
  lemma OwnMetricsStep(prefix: seq<ProductivityLog>, log: ProductivityLog)
    ensures MetricsOf(prefix + [log], log.employeeName) == AddToMetrics(MetricsOf(prefix, log.employeeName), log)
  {
    var own := EmployeeLogs(prefix, log.employeeName);
    EmployeeLogsStep(prefix, log, log.employeeName);
    assert EmployeeLogs(prefix + [log], log.employeeName) == own + [log];
    CompletedStep(own, log);
    SumHoursStep(own, log);
    assert |own + [log]| == |own| + 1;
  }

  /** Every other employee's metrics stay as they were. */
  lemma OtherMetricsStep(prefix: seq<ProductivityLog>, log: ProductivityLog, name: string)
    requires log.employeeName != name
    ensures MetricsOf(prefix + [log], name) == MetricsOf(prefix, name)
  {
    var own := EmployeeLogs(prefix, name);
    EmployeeLogsStep(prefix, log, name);
    assert own + [] == own;
    assert EmployeeLogs(prefix + [log], name) == own;
  }

  /** `employeeMetrics` and its key order after the logs `prefix` have been folded in. */
  ghost predicate MetricsFor(employeeMetrics: map<string, EmployeeMetrics>, keys: seq<string>, prefix: seq<ProductivityLog>) {
    && keys == Unique(EmployeeNames(prefix))
    && (forall n :: n in employeeMetrics <==> n in keys)
    && (forall n :: n in employeeMetrics ==> employeeMetrics[n] == MetricsOf(prefix, n))
  }

  /** Folding in one more log keeps `MetricsFor`; a new name is appended to the key order. */
  lemma MetricsForStep(employeeMetrics: map<string, EmployeeMetrics>, keys: seq<string>,
                       prefix: seq<ProductivityLog>, log: ProductivityLog, entry: EmployeeMetrics)
    requires MetricsFor(employeeMetrics, keys, prefix)
    requires entry == if log.employeeName in employeeMetrics then employeeMetrics[log.employeeName] else NoMetrics
    ensures log.employeeName in employeeMetrics ==>
      MetricsFor(employeeMetrics[log.employeeName := AddToMetrics(entry, log)], keys, prefix + [log])
    ensures log.employeeName !in employeeMetrics ==>
      MetricsFor(employeeMetrics[log.employeeName := AddToMetrics(entry, log)], keys + [log.employeeName], prefix + [log])
  {
    if log.employeeName in employeeMetrics {
      KnownNameStep(employeeMetrics, keys, prefix, log);
    } else {
      NewNameStep(employeeMetrics, keys, prefix, log);
    }
  }

  lemma KnownNameStep(employeeMetrics: map<string, EmployeeMetrics>, keys: seq<string>,
                      prefix: seq<ProductivityLog>, log: ProductivityLog)
    requires MetricsFor(employeeMetrics, keys, prefix)
    requires log.employeeName in employeeMetrics
    ensures MetricsFor(employeeMetrics[log.employeeName := AddToMetrics(employeeMetrics[log.employeeName], log)],
                       keys, prefix + [log])
  {
    var name := log.employeeName;
    var entry := employeeMetrics[name];
    var m2 := employeeMetrics[name := AddToMetrics(entry, log)];
    UniqueNamesStep(prefix, log);
    assert name in keys;
    assert keys == Unique(EmployeeNames(prefix + [log]));
    assert entry == MetricsOf(prefix, name);
    forall n ensures n in m2 <==> n in keys {
      assert n in m2 <==> n in employeeMetrics || n == name;
    }
    MetricsValuesStep(employeeMetrics, prefix, log, entry);
    assert forall n :: n in m2 ==> m2[n] == MetricsOf(prefix + [log], n);
    assert forall n :: n in m2 <==> n in keys;
    assert MetricsFor(m2, keys, prefix + [log]);
  }

  lemma NewNameStep(employeeMetrics: map<string, EmployeeMetrics>, keys: seq<string>,
                    prefix: seq<ProductivityLog>, log: ProductivityLog)
    requires MetricsFor(employeeMetrics, keys, prefix)
    requires log.employeeName !in employeeMetrics
    ensures MetricsFor(employeeMetrics[log.employeeName := AddToMetrics(NoMetrics, log)],
                       keys + [log.employeeName], prefix + [log])
  {
    var name := log.employeeName;
    var m2 := employeeMetrics[name := AddToMetrics(NoMetrics, log)];
    var k1 := keys + [name];
    UniqueNamesStep(prefix, log);
    assert name !in keys;
    assert k1 == Unique(EmployeeNames(prefix + [log]));
    assert name !in EmployeeNames(prefix);
    NewNameHasNoMetrics(prefix, name);
    forall n ensures n in m2 <==> n in k1 {
      assert n in m2 <==> n in employeeMetrics || n == name;
      assert n in k1 <==> n in keys || n == name;
    }
    MetricsValuesStep(employeeMetrics, prefix, log, NoMetrics);
  }

  lemma MetricsValuesStep(employeeMetrics: map<string, EmployeeMetrics>,
                          prefix: seq<ProductivityLog>, log: ProductivityLog, entry: EmployeeMetrics)
    requires forall n :: n in employeeMetrics ==> employeeMetrics[n] == MetricsOf(prefix, n)
    requires entry == MetricsOf(prefix, log.employeeName)
    ensures var m2 := employeeMetrics[log.employeeName := AddToMetrics(entry, log)];
      forall n :: n in m2 ==> m2[n] == MetricsOf(prefix + [log], n)
  {
    var m2 := employeeMetrics[log.employeeName := AddToMetrics(entry, log)];
    forall n | n in m2 ensures m2[n] == MetricsOf(prefix + [log], n) {
      MetricsStep(prefix, log, n);
    }
  }

  lemma UniqueNamesStep(prefix: seq<ProductivityLog>, log: ProductivityLog)
    ensures var u := Unique(EmployeeNames(prefix));
      Unique(EmployeeNames(prefix + [log])) == if log.employeeName in u then u else u + [log.employeeName]
  {
    var name := log.employeeName;
    assert EmployeeNames(prefix + [log]) == EmployeeNames(prefix) + [name] by {
      assert (prefix + [log])[..|prefix|] == prefix;
    }
    assert (EmployeeNames(prefix) + [name])[..|prefix|] == EmployeeNames(prefix);
  }

  lemma NewNameHasNoMetrics(prefix: seq<ProductivityLog>, name: string)
    requires name !in EmployeeNames(prefix)
    ensures MetricsOf(prefix, name) == NoMetrics
  {
    forall l | l in prefix ensures l.employeeName != name {
      assert prefix[IndexOf(prefix, l)].employeeName in EmployeeNames(prefix);
    }
    EmployeeLogsMembers(prefix, name);
    if EmployeeLogs(prefix, name) != [] {
      assert EmployeeLogs(prefix, name)[0] in EmployeeLogs(prefix, name);
    }
  }

  /** A second write to the same key replaces the first. */
  lemma Overwrite<K, V>(m: map<K, V>, k: K, first: V, second: V)
    ensures m[k := first][k := second] == m[k := second]
  {
  }

  /** The loop body: create the entry on first sight of the name, then count the log in. */
  method RecordLog(employeeMetrics: map<string, EmployeeMetrics>, keys: seq<string>,
                   log: ProductivityLog, ghost prefix: seq<ProductivityLog>)
    returns (updated: map<string, EmployeeMetrics>, updatedKeys: seq<string>)
    requires MetricsFor(employeeMetrics, keys, prefix)
    ensures MetricsFor(updated, updatedKeys, prefix + [log])
  {
    var name := log.employeeName;
    if name !in employeeMetrics {
      var created := employeeMetrics[name := NoMetrics];
      var m := AccumulateLog(created[name], log);
      updated, updatedKeys := created[name := m], keys + [name];
      Overwrite(employeeMetrics, name, NoMetrics, m);
      NewNameStep(employeeMetrics, keys, prefix, log);
    } else {
      var m := AccumulateLog(employeeMetrics[name], log);
      updated, updatedKeys := employeeMetrics[name := m], keys;
      KnownNameStep(employeeMetrics, keys, prefix, log);
    }
  }

  /** The `safeLogs.forEach` pass that fills `employeeMetrics`; `keys` is
      the creation order of its entries, which `Object.entries` follows. */
  method CollectEmployeeMetrics(safeLogs: seq<ProductivityLog>)
    returns (employeeMetrics: map<string, EmployeeMetrics>, keys: seq<string>)
    ensures keys == Unique(EmployeeNames(safeLogs))
    ensures forall n :: n in employeeMetrics <==> n in keys
    ensures forall n :: n in employeeMetrics ==> employeeMetrics[n] == MetricsOf(safeLogs, n)
  {
    employeeMetrics := map[];
    keys := [];
    for i := 0 to |safeLogs|
      invariant MetricsFor(employeeMetrics, keys, safeLogs[..i])
    {
      assert safeLogs[..i + 1] == safeLogs[..i] + [safeLogs[i]];
      employeeMetrics, keys := RecordLog(employeeMetrics, keys, safeLogs[i], safeLogs[..i]);
    }
    assert safeLogs[..|safeLogs|] == safeLogs;
  }

  /** The leaderboard computed the way the source does: accumulate, map, sort, slice. */
  method ComputeLeaderboard(safeLogs: seq<ProductivityLog>) returns (board: seq<EmployeeStats>)
    ensures board == EmployeeLeaderboard(safeLogs)
  {
    var employeeMetrics, keys := CollectEmployeeMetrics(safeLogs);
    var rows := seq(|keys|, i requires 0 <= i < |keys| => EmployeeRow(keys[i], employeeMetrics[keys[i]]));
    assert rows == EmployeeRows(safeLogs);
    board := Take(SortDesc(rows, CompletedKey), LeaderboardSize);
  }

  // ------------------------------------------------------------- daily trend

  /** The trend covers this many days, ending today. */
  const TrendDays: nat := 7

  function LogsOn(logs: seq<ProductivityLog>, day: Day): seq<ProductivityLog> {
    Filter(logs, (l: ProductivityLog) => l.date == day)
  }

  function TrendPoint(logs: seq<ProductivityLog>, day: Day): DailyTrendPoint {
    var logsOnDate := LogsOn(logs, day);
    DailyTrendPoint(day, |logsOnDate|, CompletedCount(logsOnDate))
  }

  /** dailyTrend: the seven days ending `today`, over every log (the filter
      criteria play no part), computed newest first and then reversed. */
  function DailyTrend(logs: seq<ProductivityLog>, today: Day): seq<DailyTrendPoint> {
    Reverse(NewestFirst(logs, today))
  }

  /** `Array.from({ length: 7 }).map(...)`: today first, then one day further back each step. */
  function NewestFirst(logs: seq<ProductivityLog>, today: Day): (r: seq<DailyTrendPoint>)
    ensures |r| == TrendDays
    ensures forall i :: 0 <= i < TrendDays ==> r[i].date == today - i && TrendPointCounts(logs, r[i])
  {
    var r := seq(TrendDays, i requires 0 <= i < TrendDays => TrendPoint(logs, today - i));
    forall i | 0 <= i < TrendDays ensures r[i].date == today - i && TrendPointCounts(logs, r[i]) {
      TrendPointFacts(logs, today - i);
    }
    r
  }

  /** Seven points, oldest first, on consecutive days ending today; each
      counts the logs of its day and at most that many completed ones. */
  lemma DailyTrendShape(logs: seq<ProductivityLog>, today: Day)
    ensures |DailyTrend(logs, today)| == TrendDays
    ensures forall j :: 0 <= j < TrendDays ==>
      var pt := DailyTrend(logs, today)[j];
      && pt.date == today - (TrendDays - 1) + j
      && pt.totalTasks == |LogsOn(logs, pt.date)|
      && (forall l :: l in LogsOn(logs, pt.date) <==> l in logs && l.date == pt.date)
      && pt.completedTasks <= pt.totalTasks
  {
    var newestFirst := NewestFirst(logs, today);
    forall j | 0 <= j < TrendDays
      ensures DailyTrend(logs, today)[j] == TrendPoint(logs, today - (TrendDays - 1) + j)
    {
      assert DailyTrend(logs, today)[j] == newestFirst[TrendDays - 1 - j];
    }
    forall day | true
      ensures TrendPointCounts(logs, TrendPoint(logs, day))
    {
      TrendPointFacts(logs, day);
    }
  }

  /** What one trend point says about its day. */
  ghost predicate TrendPointCounts(logs: seq<ProductivityLog>, pt: DailyTrendPoint) {
    && pt.totalTasks == |LogsOn(logs, pt.date)|
    && (forall l :: l in LogsOn(logs, pt.date) <==> l in logs && l.date == pt.date)
    && pt.completedTasks <= pt.totalTasks
  }

  lemma TrendPointFacts(logs: seq<ProductivityLog>, day: Day)
    ensures TrendPoint(logs, day).date == day
    ensures TrendPointCounts(logs, TrendPoint(logs, day))
  {
  }

  // ----------------------------------------------------- status distribution

  function Point(logs: seq<ProductivityLog>, st: TaskStatus): TaskStatusDistributionPoint {
    TaskStatusDistributionPoint(st, |StatusLogs(logs, st)|)
  }

  /** taskStatusDistribution: one point per status, in the key order of `statusCounts`. */
  function StatusDistribution(logs: seq<ProductivityLog>): seq<TaskStatusDistributionPoint> {
    seq(|AllStatuses|, i requires 0 <= i < |AllStatuses| => Point(logs, AllStatuses[i]))
  }

  lemma StatusLogsStep(prefix: seq<ProductivityLog>, log: ProductivityLog, st: TaskStatus)
    ensures StatusLogs(prefix + [log], st) == StatusLogs(prefix, st) + (if log.taskStatus == st then [log] else [])
  {
    var s := prefix + [log];
    assert s[..|s| - 1] == prefix;
  }

  lemma {:induction false} StatusCountsSum(logs: seq<ProductivityLog>)
    ensures |StatusLogs(logs, Complete)| + |StatusLogs(logs, InProgress)| + |StatusLogs(logs, Incomplete)| == |logs|
    decreases |logs|
  {
    if logs != [] {
      var init := logs[..|logs| - 1];
      var last := logs[|logs| - 1];
      assert logs == init + [last];
      StatusCountsSum(init);
      StatusLogsStep(init, last, Complete);
      StatusLogsStep(init, last, InProgress);
      StatusLogsStep(init, last, Incomplete);
    }
  }

  /** Three points, Complete, In Progress, Incomplete; the first is the
      completed count and the counts add up to the number of logs. */
  lemma StatusDistributionShape(logs: seq<ProductivityLog>)
    ensures var d := StatusDistribution(logs);
      && |d| == 3
      && d[0].name == Complete && d[1].name == InProgress && d[2].name == Incomplete
      && d[0].value == CompletedCount(logs)
      && d[0].value + d[1].value + d[2].value == |logs|
  {
    StatusCountsSum(logs);
  }

  /** The `statusCounts` pass: a counter per status, incremented in place. */
  method CountStatuses(safeLogs: seq<ProductivityLog>) returns (distribution: seq<TaskStatusDistributionPoint>)
    ensures distribution == StatusDistribution(safeLogs)
  {
    var statusCounts: map<TaskStatus, nat> := map[Complete := 0, InProgress := 0, Incomplete := 0];
    assert safeLogs[..0] == [];
    forall st ensures st in statusCounts && statusCounts[st] == |StatusLogs(safeLogs[..0], st)| {
      assert st == Complete || st == InProgress || st == Incomplete;
    }
    for i := 0 to |safeLogs|
      invariant forall st :: st in statusCounts && statusCounts[st] == |StatusLogs(safeLogs[..i], st)|
    {
      var log := safeLogs[i];
      assert safeLogs[..i + 1] == safeLogs[..i] + [log];
      forall st ensures StatusLogs(safeLogs[..i + 1], st) ==
        StatusLogs(safeLogs[..i], st) + (if log.taskStatus == st then [log] else [])
      {
        StatusLogsStep(safeLogs[..i], log, st);
      }
      statusCounts := statusCounts[log.taskStatus := statusCounts[log.taskStatus] + 1];
    }
    assert safeLogs[..|safeLogs|] == safeLogs;
    distribution := [
      TaskStatusDistributionPoint(Complete, statusCounts[Complete]),
      TaskStatusDistributionPoint(InProgress, statusCounts[InProgress]),
      TaskStatusDistributionPoint(Incomplete, statusCounts[Incomplete])];
  }

  // ------------------------------------------------------------ data quality

  /** Every field the form asks for is filled in and positive. */
  predicate IsCompleteForm(l: ProductivityLog) {
    l.employeeName != "" && l.employeeId != "" && l.taskDescription != "" && l.hours > 0.0 && l.productivityRating > 0
  }

  predicate IsMissingTime(l: ProductivityLog) {
    l.hours <= 0.0
  }

  /** dataQuality: 100% complete and 0% missing on an empty set. */
  function DataQuality(logs: seq<ProductivityLog>): DataQualityStats {
    var totalLogsCount := |logs|;
    DataQualityStats(
      if totalLogsCount > 0 then Rate(|Filter(logs, IsCompleteForm)|, totalLogsCount) else 100.0,
      if totalLogsCount > 0 then Rate(|Filter(logs, IsMissingTime)|, totalLogsCount) else 0.0)
  }

  lemma RateSum(a: nat, b: nat, n: nat)
    requires n > 0
    ensures Rate(a, n) + Rate(b, n) == Rate(a + b, n)
  {
    var d := n as real;
    assert (a as real) / d + (b as real) / d == ((a + b) as real) / d;
  }

  lemma RateExtremes(k: nat, n: nat)
    requires n > 0 && k <= n
    ensures Rate(k, n) == 100.0 <==> k == n
    ensures Rate(k, n) == 0.0 <==> k == 0
  {
    var q := (k as real) / (n as real);
    assert q * (n as real) == k as real;
  }

  /** Both percentages lie in [0, 100] and add up to at most 100, because a
      log with no time is never a complete form. */
  lemma DataQualityBounds(logs: seq<ProductivityLog>)
    ensures logs == [] ==> DataQuality(logs) == DataQualityStats(100.0, 0.0)
    ensures 0.0 <= DataQuality(logs).formCompletenessScore <= 100.0
    ensures 0.0 <= DataQuality(logs).missingTimeEntries <= 100.0
    ensures DataQuality(logs).formCompletenessScore + DataQuality(logs).missingTimeEntries <= 100.0
  {
    if logs != [] {
      FilterDisjointCount(logs, IsCompleteForm, IsMissingTime);
      RateSum(|Filter(logs, IsCompleteForm)|, |Filter(logs, IsMissingTime)|, |logs|);
    }
  }

  /** Completeness is 100 exactly when every log is a complete form, and no
      time is missing exactly when every log has positive hours. */
  lemma DataQualityExtremes(logs: seq<ProductivityLog>)
    requires logs != []
    ensures DataQuality(logs).formCompletenessScore == 100.0 <==> forall l :: l in logs ==> IsCompleteForm(l)
    ensures DataQuality(logs).missingTimeEntries == 0.0 <==> forall l :: l in logs ==> l.hours > 0.0
  {
    FilterKeepsAll(logs, IsCompleteForm);
    FilterKeepsNone(logs, IsMissingTime);
    RateExtremes(|Filter(logs, IsCompleteForm)|, |logs|);
    RateExtremes(|Filter(logs, IsMissingTime)|, |logs|);
  }

  /** The counting pass, guarded by the non-empty check as in the source. */
  method MeasureDataQuality(safeLogs: seq<ProductivityLog>) returns (quality: DataQualityStats)
    ensures quality == DataQuality(safeLogs)
  {
    var totalLogsCount := |safeLogs|;
    var completeForms := 0;
    var missingTime := 0;
    if totalLogsCount > 0 {
      completeForms, missingTime := CountFormsAndMissingTime(safeLogs);
    }
    quality := DataQualityStats(
      if totalLogsCount > 0 then Rate(completeForms, totalLogsCount) else 100.0,
      if totalLogsCount > 0 then Rate(missingTime, totalLogsCount) else 0.0);
  }

  /** The `safeLogs.forEach` that increments the two counters. */
  method CountFormsAndMissingTime(safeLogs: seq<ProductivityLog>) returns (completeForms: nat, missingTime: nat)
    ensures completeForms == |Filter(safeLogs, IsCompleteForm)|
    ensures missingTime == |Filter(safeLogs, IsMissingTime)|
  {
    completeForms := 0;
    missingTime := 0;
    assert safeLogs[..0] == [];
    for i := 0 to |safeLogs|
      invariant completeForms == |Filter(safeLogs[..i], IsCompleteForm)|
      invariant missingTime == |Filter(safeLogs[..i], IsMissingTime)|
    {
      var log := safeLogs[i];
      FilterCountStep(safeLogs, i, IsCompleteForm);
      if IsCompleteForm(log) {
        completeForms := completeForms + 1;
      }
      FilterCountStep(safeLogs, i, IsMissingTime);
      if IsMissingTime(log) {
        missingTime := missingTime + 1;
      }
    }
    assert safeLogs[..|safeLogs|] == safeLogs;
  }

  // ----------------------------------------------------------------- kpiData

  /** kpiData: the six groups over the filtered logs, except the trend,
      which reads every log. */
  function Kpis(logs: seq<ProductivityLog>, c: Criteria, today: Day): KpiData {
    var safeLogs := FilterLogs(logs, c);
    KpiData(
      ExecutiveSummary(safeLogs),
      EmployeeLeaderboard(safeLogs),
      DepartmentalPerformance(safeLogs),
      DailyTrend(logs, today),
      StatusDistribution(safeLogs),
      DataQuality(safeLogs))
  }

  /** The whole computation, with each loop of the source run as a loop. */
  method ComputeKpiData(logs: seq<ProductivityLog>, c: Criteria, today: Day) returns (kpiData: KpiData)
    ensures kpiData == Kpis(logs, c, today)
  {
    var safeLogs := FilterLogs(logs, c);
    var departmentalPerformance := DepartmentalPerformance(safeLogs);
    var employeeLeaderboard := ComputeLeaderboard(safeLogs);
    var totalTasks := |safeLogs|;
    var completedTasks := CompletedCount(safeLogs);
    var totalHours := SumHours(safeLogs);
    var sortedDeptsByCompletion := CompletionRanking(departmentalPerformance);
    var overallUtilizationRate := CalculateUtilization(safeLogs);
    var executiveSummary := ExecutiveStats(
      totalTasks,
      completedTasks,
      Rate(completedTasks, totalTasks),
      Average(totalHours, totalTasks),
      TopDepartment(sortedDeptsByCompletion),
      LeastDepartment(sortedDeptsByCompletion),
      overallUtilizationRate,
      0.0);
    var dailyTrend := DailyTrend(logs, today);
    var taskStatusDistribution := CountStatuses(safeLogs);
    var dataQuality := MeasureDataQuality(safeLogs);
    kpiData := KpiData(executiveSummary, employeeLeaderboard, departmentalPerformance, dailyTrend, taskStatusDistribution, dataQuality);
  }

  /** The filter criteria change every group except the trend. */
  lemma TrendIgnoresCriteria(logs: seq<ProductivityLog>, c: Criteria, today: Day)
    ensures Kpis(logs, c, today).dailyTrend == Kpis(logs, NoCriteria, today).dailyTrend
    ensures Kpis(logs, NoCriteria, today).executiveSummary.totalTasks == |logs|
  {
    FilterNoCriteria(logs);
  }
}
