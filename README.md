# Productivity dashboard core, modelled in Dafny

The dashboard collects one log per task and per employee-day. Each log records the
employee, the department, a task category and status, the hours, and a 1-5
rating. From these logs the dashboard computes:

- an executive summary;
- a per-department table;
- an employee top-ten leaderboard;
- a seven-day trend;
- a status distribution;
- two data-quality percentages.

The employee enters the day's work on a multi-task form. The admin can filter the
logs and export the filtered logs as CSV.

This project models that core in Dafny and proves properties of it:

- the KPI hook (`hooks/useProductivityData.ts`);
- the enumerations and records (`ais-dashboard-final/types.ts`);
- the export and the filter reset of the dashboard page (`pages/DashboardPage.tsx`);
- the daily-log form (`pages/LogEntryPage.tsx`).

Modules, one concept each:

| module | file | what it holds |
|---|---|---|
| `Types` | types.dfy | The three enumerations with their string values, declaration order and name-to-member inverses, plus the log, task, submission and KPI records. A day is an integer day number. |
| `Seqs` | seqs.dfy | The order-preserving `filter`, first-encounter de-duplication (the order in which a `Set` or object keys are listed), `slice` and `reverse`. |
| `Sorting` | sorting.dfy | `Array.prototype.sort`, which is stable: an insertion sort on a numeric key, descending. It is proved sorted, a permutation and stable. There is also the ascending code-point string sort behind a bare `.sort()`. |
| `Engine` | engine.dfy | The filter stage, `calculateUtilization` and the six KPI groups. Each `forEach` that fills a dictionary or bumps counters is a method with loop invariants, proved equal to a specification function. `ComputeKpiData` runs them all and equals the specification `Kpis`. |
| `Store` | store.dfy | The `logs` state: the initial merge, de-duplicated by id and sorted newest first (`LogStore.constructor`), `addLog` (`LogStore.AddLog`), and the option lists of the filter selectors. |
| `CsvReader` | csvreader.dfy | A reader for the comma-separated format of section 2 of RFC 4180, with line-feed record separators. It is the inverse against which the export is proved. |
| `Dashboard` | dashboard.dfy | The filter state with its reset button (`DashboardFilters`), the cell escaper, the record builder and the export text. |
| `LogEntry` | logentry.dfy | The form's state (`LogEntryForm`: form data, one to ten tasks, error, submitted) and its handlers. The submit decision is the function `Outcome`. |
| `PlainObjects` | prototype.dfy | The per-employee dictionary of `calculateUtilization` as written, on a plain object. See Findings. |

The two main results are:

- `Dashboard.ExportRoundTrip`: reading the exported text back with the RFC 4180
  reader gives the header and every log's twelve values, whatever quotes, commas
  or line breaks the free text holds.
- `Engine.ComputeKpiData`: the loop-based computation produces exactly the
  specification `Kpis`, whose parts the Engine lemmas characterise:
  - department table: one row per department, ordered by task count with ties in
    enumeration order;
  - leaderboard: at most ten distinct employees, by completed tasks with ties in
    first-encounter order;
  - top and least department: the best and the worst completion rate among the
    active departments;
  - trend: seven consecutive days over the unfiltered logs;
  - status distribution and data quality: their bounds and sums.

All files are verified together. The proofs are meant for
`dafny verify --resource-limit 2000000 --verification-time-limit 0 --warn-contradictory-assumptions *.dfy`
(Dafny 4.11). They also go through under plain `dafny verify *.dfy`, which has no
resource limit. The warning option changes how the solver searches, so a proof's
cost differs between the two settings. Every member stays within the resource
limit in both.

## Model

| member | source | states |
|---|---|---|
| Engine.FilterLogs | hooks/useProductivityData.ts:58-72 | A log is kept iff start <= date, date <= end, the department name and the employee name all hold, each only when its criterion is non-empty. The result is an order-preserving subsequence, and each kept log occurs as often as in the input. |
| Engine.FilterNoCriteria | hooks/useProductivityData.ts:58-72 | With every criterion empty, the filter returns the logs unchanged. |
| Engine.SumHoursAppend | hooks/useProductivityData.ts:79 | The hours total of a concatenation is the sum of the two totals. |
| Engine.SumHoursNonNegative | hooks/useProductivityData.ts:79 | With no negative hours, the total is not negative. |
| Engine.UtilizationFormula | hooks/useProductivityData.ts:77-90 | Utilization is 0 for no logs. Otherwise there is at least one (employee, date) pair, and utilization is total hours / (distinct pairs x 8) x 100. |
| Engine.UtilizationNonNegative | hooks/useProductivityData.ts:77-90 | With no negative hours, utilization is never negative. |
| Engine.UtilizationSplitInvariant | hooks/useProductivityData.ts:77-90 | Replacing one log by several logs of the same employee and day with the same total hours leaves utilization unchanged. |
| Engine.UtilizationCongruence | hooks/useProductivityData.ts:77-90 | Two non-empty log lists with equal hour totals and equal (employee, date) sets have equal utilization. |
| Engine.CollectWorkDays | hooks/useProductivityData.ts:80-86 | The `forEach` builds a dictionary whose keys are exactly the employee names, and each value is the set of dates that employee logged. |
| Engine.PairsCoverWorkDays | hooks/useProductivityData.ts:80-87 | The (name, date) pairs of that dictionary are exactly the distinct (employee, date) pairs of the logs. |
| Engine.CountWorkDays | hooks/useProductivityData.ts:87 | The sum of the set sizes is the number of (name, date) pairs in the dictionary. |
| Engine.CalculateUtilization | hooks/useProductivityData.ts:77-90 | The loop-based computation equals the utilization formula. |
| Engine.CompletedCount | hooks/useProductivityData.ts:95 | The number of completed logs is at most the number of logs. |
| Engine.Rate | hooks/useProductivityData.ts:101 | `total > 0 ? part/total*100 : 0` is 0 for total 0; otherwise rate × total = part × 100. It lies in [0, 100] when part <= total. |
| Engine.Average | hooks/useProductivityData.ts:102 | `count > 0 ? sum/count : 0` is 0 for count 0; otherwise average x count = sum. |
| Engine.RateSum | hooks/useProductivityData.ts:186-187 | For a positive total, two rates over it add up to the rate of the summed parts. |
| Engine.RateExtremes | hooks/useProductivityData.ts:186-187 | For part <= total and total > 0, the rate is 100 iff part = total, and 0 iff part = 0. |
| Engine.DepartmentRow | hooks/useProductivityData.ts:93-104 | A row names its department and counts that department's logs. With no logs, its completion rate, average duration and utilization are all 0. The completion rate is Rate(completed, total) and lies in [0, 100]. The average duration is Average(hours, total), and the utilization is Utilization over the department's logs. |
| Engine.DepartmentalPerformanceMembers | hooks/useProductivityData.ts:92-105 | The table has exactly 20 entries, one per department, including departments without logs. Each entry is that department's row. |
| Engine.DepartmentalPerformanceDistinct | hooks/useProductivityData.ts:92-105 | No department appears twice. |
| Engine.DepartmentalPerformanceRowsDistinct | hooks/useProductivityData.ts:92-105 | The rows are pairwise distinct. |
| Engine.DepartmentRowsOccurOnce | hooks/useProductivityData.ts:92-105 | Each row occurs at most once in the sorted table. |
| Engine.DepartmentalPerformanceOrder | hooks/useProductivityData.ts:105 | The table is sorted by totalTasks, descending. Rows with equal totals keep the declaration order of the enumeration. |
| Engine.ExecutiveSummary | hooks/useProductivityData.ts:127-142 | totalTasks = number of filtered logs, and completedTasks <= totalTasks. The completion rate lies in [0, 100]. Rate, average and utilization are all 0 for an empty set; otherwise the average is hours / logs. The completion rate is Rate(completed, total), the overall utilization is Utilization over the filtered logs, and the rework rate is always 0. |
| Engine.ActiveRowOf | hooks/useProductivityData.ts:130 | The department of any filtered log has an active row. |
| Engine.NoActiveRow | hooks/useProductivityData.ts:130 | With no logs, no department is active. |
| Engine.ExecutiveNotAvailable | hooks/useProductivityData.ts:138-139 | The top and least department are both "N/A" iff the filtered set is empty. |
| Engine.ExecutiveTopIsBest | hooks/useProductivityData.ts:130-138 | With some log in view, the top department is an active department with the highest completion rate. Among equal rates it is the one earliest in the table. |
| Engine.ExecutiveLeastIsWorst | hooks/useProductivityData.ts:130-139 | With some log in view, the least department is an active department with the lowest completion rate. Among equal rates it is the one latest in the table. |
| Engine.ExecutiveTopNotWorse | hooks/useProductivityData.ts:130-139 | With some log in view, the top department's completion rate is at least the least department's. |
| Engine.RankingFirstIsBest | hooks/useProductivityData.ts:131-138 | The head of the stable completion-rate sort of the active rows is active and has the highest rate, and it comes first among equal rates. |
| Engine.RankingLastIsWorst | hooks/useProductivityData.ts:131-139 | The last entry of that sort is active and has the lowest rate, and it comes last among equal rates. |
| Engine.RankingTies | hooks/useProductivityData.ts:131 | Departments with equal completion rates keep their table order in the ranking. |
| Engine.EmployeeLogsMembers | hooks/useProductivityData.ts:117 | An employee's log list holds exactly the logs with that name. |
| Engine.MetricsOf | hooks/useProductivityData.ts:107-118 | An employee's log count equals the length of that employee's log list. Completed tasks are at most the log count. |
| Engine.EmployeeRowsShape | hooks/useProductivityData.ts:107-124 | Each row is the statistics of an employee who has a log. The names are pairwise distinct and appear in the order in which they are first met. Every employee with a log has a row. |
| Engine.LeaderboardEntries | hooks/useProductivityData.ts:120-125 | The leaderboard has at most 10 rows, and fewer only when there are fewer distinct employees. Each row is the statistics of an employee with at least one filtered log, with completed tasks <= that employee's log count. |
| Engine.LeaderboardDistinct | hooks/useProductivityData.ts:120-125 | No employee appears twice. |
| Engine.LeaderboardOrder | hooks/useProductivityData.ts:125 | Rows are ordered by completed tasks, descending. Ties are in the order in which the names were first met. |
| Engine.LeaderboardTop | hooks/useProductivityData.ts:125 | An employee left off the board means the board is full, and every listed employee completed at least as many tasks. |
| Engine.AccumulateLog | hooks/useProductivityData.ts:112-117 | The loop body's increments add one log to an employee's entry. |
| Engine.MetricsStep | hooks/useProductivityData.ts:112-117 | Adding a log changes only that employee's metrics, by exactly one log's increments. |
| Engine.MetricsForStep | hooks/useProductivityData.ts:108-118 | One loop step keeps the invariant. The dictionary maps exactly the names seen so far to their metrics, and the key order is the first-encounter order. |
| Engine.RecordLog | hooks/useProductivityData.ts:108-118 | One `forEach` step on the dictionary keeps that invariant. |
| Engine.CollectEmployeeMetrics | hooks/useProductivityData.ts:107-118 | The loop yields the first-encounter name order and each employee's metrics. |
| Engine.ComputeLeaderboard | hooks/useProductivityData.ts:107-125 | Accumulate, map, sort and slice give exactly the specified leaderboard. |
| Engine.NewestFirst | hooks/useProductivityData.ts:144-155 | There are seven points. Point i is dated today - i and counts every log of that day, with at most that many completed. |
| Engine.DailyTrendShape | hooks/useProductivityData.ts:144-156 | There are seven points, oldest first, on the consecutive days today-6 .. today. Each point counts exactly its day's logs, and completed <= total. |
| Engine.TrendPointFacts | hooks/useProductivityData.ts:148-149 | A point counts the logs of its date, and at most that many completed ones. |
| Engine.TrendIgnoresCriteria | hooks/useProductivityData.ts:144-156 | The trend is the same under every filter. With no filter, the summary counts every log. |
| Engine.StatusCountsSum | hooks/useProductivityData.ts:158-165 | The three status counts add up to the number of logs. |
| Engine.StatusDistributionShape | hooks/useProductivityData.ts:158-169 | There are exactly three points, Complete, In Progress and Incomplete, in that order. The first is the completed count, and the values sum to the number of filtered logs. |
| Engine.CountStatuses | hooks/useProductivityData.ts:158-169 | The counter loop gives exactly that distribution. |
| Engine.DataQualityBounds | hooks/useProductivityData.ts:171-188 | No logs give 100% complete and 0% missing. Both percentages lie in [0, 100], and their sum is at most 100, because a log with hours <= 0 is never complete. |
| Engine.DataQualityExtremes | hooks/useProductivityData.ts:171-188 | For a non-empty set, completeness is 100 iff every log is complete, and missing time is 0 iff every log has positive hours. |
| Engine.CountFormsAndMissingTime | hooks/useProductivityData.ts:172-183 | The two counters count exactly the complete logs and the logs without time. |
| Engine.MeasureDataQuality | hooks/useProductivityData.ts:171-188 | The counter loop gives exactly the specified percentages. |
| Engine.ComputeKpiData | hooks/useProductivityData.ts:74-191 | The whole loop-based computation equals the specification `Kpis`. |
| Sorting.SortDesc | hooks/useProductivityData.ts:105 | The sort is a permutation of its input, sorted by key, descending. |
| Sorting.SortDescStable | hooks/useProductivityData.ts:105 | For every key value, the elements with that key keep their relative order. |
| Sorting.SortDescTiesByRank | hooks/useProductivityData.ts:105 | For input in increasing rank, equal keys come out in increasing rank. |
| Sorting.SortStringsDistinct | hooks/useProductivityData.ts:194 | Sorting distinct strings keeps the same members, pairwise distinct, in ascending code-point order. |
| Seqs.UniqueFirstEncounterOrder | hooks/useProductivityData.ts:120 | De-duplication lists values in the order of their first occurrence. |
| Store.SortByDateDesc | hooks/useProductivityData.ts:21 | The result is a permutation of the logs, newest first. |
| Store.SortByDateDescStable | hooks/useProductivityData.ts:21 | Logs of the same day keep their relative order. |
| Store.LastIndexOfId | hooks/useProductivityData.ts:20 | It returns the last position holding the id. |
| Store.DedupeById | hooks/useProductivityData.ts:20 | The ids are those of the input in first-encounter order, each once. Every input id survives, and each survivor is the last log with its id. |
| Store.DedupeByIdIdentity | hooks/useProductivityData.ts:20 | On logs with distinct ids, de-duplication changes nothing. |
| Store.InitialLogsValid | hooks/useProductivityData.ts:19-21 | The initial log list has distinct ids. |
| Store.LogStore.constructor | hooks/useProductivityData.ts:15-21 | The state starts as the de-duplicated merge of the fixed and the saved logs, newest first, with distinct ids. |
| Store.HoursPerTask | hooks/useProductivityData.ts:38 | Each task gets hours/N, so that N shares add back to the total; with no task it gets 0. |
| Store.ExpandSubmission | hooks/useProductivityData.ts:40-53 | There is one log per task, in task order, carrying the given fresh ids. Each log takes the shared fields from the submission, the task fields from its task, and hours/N. |
| Store.ExpandSubmissionHours | hooks/useProductivityData.ts:38-53 | The new logs' hours add up to the submitted hours, or to 0 when there is no task. |
| Store.ExpandSubmissionUtilization | hooks/useProductivityData.ts:37-56 | Wherever the new logs are placed, utilization equals that of one log carrying the whole day. |
| Store.AddLogs | hooks/useProductivityData.ts:55 | The new list holds the new logs and the old ones, N more in all. |
| Store.AddLogsNewFirst | hooks/useProductivityData.ts:55 | On each day, the new logs come before the old ones, and both groups keep their order. |
| Store.AddLogsValid | hooks/useProductivityData.ts:37-56 | With fresh, distinct ids, the ids stay distinct. |
| Store.LogStore.AddLog | hooks/useProductivityData.ts:37-56 | `addLog` replaces the state by the re-sorted list with N more logs. It keeps the ids distinct and the list newest first. |
| Store.EmployeeOptionsShape | hooks/useProductivityData.ts:194 | The employee selector lists exactly the names that occur, each once, ascending. |
| Store.DepartmentOptionsShape | hooks/useProductivityData.ts:195 | The department selector lists the 20 department names, each once, ascending. Every entry names a department. |
| Types.DepartmentIndex | ais-dashboard-final/types.ts:1-22 | Each member has its declaration position in the enumeration order. |
| Types.DepartmentEnumeration | ais-dashboard-final/types.ts:1-22 | There are 20 members, pairwise distinct, and each is listed. |
| Types.DepartmentNameRoundTrip | ais-dashboard-final/types.ts:1-22 | A department's string value reads back as that department. The value is neither empty nor "N/A". |
| Types.DepartmentNameInjective | ais-dashboard-final/types.ts:1-22 | Two departments have the same string value iff they are the same, so grouping by the string is unambiguous. |
| Types.CategoryNameRoundTrip | ais-dashboard-final/types.ts:24-36 | A category's string value reads back as that category. |
| Types.CategoryEnumeration | ais-dashboard-final/types.ts:24-36 | There are 11 categories, each listed, with pairwise distinct string values. |
| Types.StatusEnumeration | ais-dashboard-final/types.ts:38-42 | There are 3 statuses, in the order Complete, In Progress, Incomplete, and each string value reads back as its status. |
| Dashboard.DashboardFilters.constructor | ais-dashboard-final/App.tsx:31-35 | The filters start empty. |
| Dashboard.DashboardFilters.ResetFilters | pages/DashboardPage.tsx:27-33 | Reset empties start, end, department and employee, after which the filter keeps every log. |
| Dashboard.DashboardFilters.SetStart | components/InsightsCard.tsx:20-23 | The date input changes only its own bound. |
| Dashboard.DashboardFilters.SetEnd | components/InsightsCard.tsx:20-23 | The date input changes only its own bound. |
| Dashboard.DashboardFilters.SetDepartment | components/InsightsCard.tsx:25-28 | The selector changes only the department filter. |
| Dashboard.DashboardFilters.SetEmployee | components/InsightsCard.tsx:25-28 | The selector changes only the employee filter. |
| Dashboard.DoubleQuotes | pages/DashboardPage.tsx:50 | Doubling the quotes adds one character per quote. |
| Dashboard.EscapeCsvCell | pages/DashboardPage.tsx:47-53 | A value without `"`, `,`, LF or CR is returned unchanged. Any other value is wrapped in quotes, its length being the value's length + 2 + the number of quotes. |
| Dashboard.CellText | pages/DashboardPage.tsx:48 | A missing value is written as the empty string. |
| Dashboard.QuotedRoundTrip | pages/DashboardPage.tsx:50 | Reading to the closing quote and collapsing each `""` recovers the value. |
| Dashboard.BareRoundTrip | pages/DashboardPage.tsx:52 | An unescaped plain value reads back up to the next separator. |
| Dashboard.FieldRoundTrip | pages/DashboardPage.tsx:47-53 | Every escaped cell reads back as the original value, in both branches. |
| Dashboard.NatText | pages/DashboardPage.tsx:68 | A whole number is written as one or more decimal digits. |
| Dashboard.NatTextRoundTrip | pages/DashboardPage.tsx:68 | The digits written for the rating read back as the number. |
| Dashboard.IntTextPlain | pages/DashboardPage.tsx:68 | The unescaped rating never holds a special character. |
| Dashboard.HeadersArePlain | pages/DashboardPage.tsx:41-45 | The unescaped header names hold no special character. |
| Dashboard.DepartmentNamePlain | pages/DashboardPage.tsx:63 | The unescaped department value holds no special character. |
| Dashboard.CategoryNamePlain | pages/DashboardPage.tsx:64 | The unescaped category value holds no special character. |
| Dashboard.StatusNamePlain | pages/DashboardPage.tsx:66 | The unescaped status value holds no special character. |
| Dashboard.LogFields | pages/DashboardPage.tsx:58-71 | A record has twelve values. |
| Dashboard.LogCells | pages/DashboardPage.tsx:58-71 | A row has twelve cells. |
| Dashboard.LogRows | pages/DashboardPage.tsx:57-73 | There is one row per log, in input order. |
| Dashboard.LogRowEncodes | pages/DashboardPage.tsx:58-72 | The row equals the RFC 4180 encoding of the twelve values, because the seven unescaped ones are plain. |
| Dashboard.ExportRecords | pages/DashboardPage.tsx:41-73 | The header comes first, then each log's twelve values in view order. |
| Dashboard.ExportRecordsWidth | pages/DashboardPage.tsx:41-71 | Every record has as many values as the header. |
| Dashboard.CsvTextEncodes | pages/DashboardPage.tsx:55-76 | The export text is the line-feed-joined encoding of the header and the log records. |
| Dashboard.RecordRoundTrip | pages/DashboardPage.tsx:72 | A comma-joined record of escaped cells reads back as its values. |
| Dashboard.DocumentRoundTrip | pages/DashboardPage.tsx:76 | Line-feed-joined records read back as the records. |
| Dashboard.ExportData | pages/DashboardPage.tsx:35-39 | There is nothing to export iff no log is in view. |
| Dashboard.ExportRoundTrip | pages/DashboardPage.tsx:35-76 | For a non-empty view, the exported text reads back as the header and every log's twelve values, free text included. |
| LogEntry.ApplyGeneral | pages/LogEntryPage.tsx:83-86 | A general input never changes the rating. |
| LogEntry.ApplyTaskEdit | pages/LogEntryPage.tsx:88-93 | Editing a task keeps its id. |
| LogEntry.UpdateTask | pages/LogEntryPage.tsx:88-93 | Only the task with the id is edited. The other tasks, the ids and the length are unchanged. |
| LogEntry.RemoveById | pages/LogEntryPage.tsx:101-105 | Exactly the tasks with that id go, and the remaining tasks keep their order. |
| LogEntry.RemoveByIdCount | pages/LogEntryPage.tsx:101-105 | With distinct ids, removal drops exactly one task if the id is present, and none otherwise. |
| LogEntry.RemoveByIdDistinct | pages/LogEntryPage.tsx:101-105 | Removal keeps the ids distinct. |
| LogEntry.Outcome | pages/LogEntryPage.tsx:107-123 | Submit is accepted iff both checks pass. A missing name, a missing employee id, hours <= 0 or rating 0 gives the details error, which takes precedence. Otherwise a task without a description gives the task error. An accepted submission carries the form's tasks and hours. |
| LogEntry.AcceptedLogsComplete | pages/LogEntryPage.tsx:107-123 | Every log expanded from an accepted submission counts as a complete form with booked time. |
| LogEntry.LogEntryForm.constructor | pages/LogEntryPage.tsx:56-74 | The form starts with today, eight hours and no rating, one blank Admin/In Progress task, no error, and not submitted. |
| LogEntry.LogEntryForm.ResetForm | pages/LogEntryPage.tsx:76-81 | Reset restores exactly that initial state. |
| LogEntry.LogEntryForm.ChangeGeneral | pages/LogEntryPage.tsx:83-86 | A general input changes the named field only. |
| LogEntry.LogEntryForm.SetRating | pages/LogEntryPage.tsx:198-199 | A rating button sets a rating in 1..5 and nothing else. |
| LogEntry.LogEntryForm.ChangeTask | pages/LogEntryPage.tsx:88-93 | A task input updates the task with that id only. |
| LogEntry.LogEntryForm.AddTask | pages/LogEntryPage.tsx:95-99 | A blank task is appended only below 10 tasks, so the count never exceeds 10. |
| LogEntry.LogEntryForm.RemoveTask | pages/LogEntryPage.tsx:101-105 | Removal acts only above 1 task, so the count never drops below 1. |
| LogEntry.LogEntryForm.Submit | pages/LogEntryPage.tsx:107-123 | On rejection: the matching error message, not submitted, and no callback. On acceptance: the error cleared, submitted, and the callback given the form data plus the tasks. |
| PlainObjects.ConstructorNameThrows | hooks/useProductivityData.ts:80-86 | A log by an employee named "constructor" makes the collection as written fail, while the intended utilization is defined. |
| PlainObjects.InheritedNameThrows | hooks/useProductivityData.ts:80-86 | Any inherited key as an employee name anywhere in the logs makes it fail. |
| PlainObjects.WorkDaysAsWrittenAgrees | hooks/useProductivityData.ts:80-87 | Without such names, the code as written collects each name's dates, as intended. |

## Left out

- Browser persistence is not modelled: the `localStorage` reads and writes, JSON parsing and the `catch` fallbacks (hooks/useProductivityData.ts:15-35). `LogStore.constructor` models only the successful branch, with the saved logs as a parameter.
- `crypto.randomUUID()` is not modelled. Fresh ids are parameters; `Store.LogStore.AddLog` requires them distinct and unused, and the form's ids are given to its constructor and handlers.
- The clock and the locale are not modelled. "Today" is a parameter, and the trend's `toLocaleDateString` labels are replaced by the day numbers themselves.
- Dates are integer day numbers. The filter's date inputs become `Option<Day>`, with `None` for the empty field. Unparseable dates (`NaN` comparisons) and time zones are not modelled.
- `parseFloat(value) || 0` for the hours input is not modelled: `ChangeGeneral` receives the parsed number. Hours and rates are exact reals, and no rounding or `toFixed` display is modelled.
- The export's JavaScript `String()` rendering of dates and hours is not modelled; the formatters are parameters. The rating is whole numbers written in decimal.
- Dashboard.ExportRoundTrip assumes that the id, the formatted date and the formatted hours hold no quote, comma or line break. The export writes those three columns unescaped, so the round trip cannot hold without this.
- The export escapes five of the twelve columns: employee name, employee id, task description, blockers and tasks carried over. The model follows the code. The Blob, anchor and download steps and the empty-view `alert` are not modelled; the empty view simply gives no export.
- String order is lexicographic on characters. JavaScript compares UTF-16 code units, which differs only for characters outside the Basic Multilingual Plane.
- `Object.entries` lists integer-like keys (an employee named "42") before the others. The model lists names in first-encounter order.
- UI rendering, charts, routing, `useMemo`/`useCallback` timing and the AI-insights relays are not modelled. `components/DetailModal.tsx` re-sorts `departmentalPerformance` in place; that display-side sort is outside the engine.
- Sorting.SortStringsDistinct: stated for distinct strings only. The selectors sort only de-duplicated names and the 20 distinct department names.

## Findings

| source | as written | input that shows it | evidently intended | confidence | as-written member | corrected member |
|---|---|---|---|---|---|---|
| hooks/useProductivityData.ts:80-86 | The per-employee dictionary is a plain object literal, so `!employeeWorkDays[name]` sees members inherited from `Object.prototype`. For such a name no `Set` is created, and `.add` throws a `TypeError`. The same pattern is in `employeeMetrics` (lines 107-118), where `.logs.push` would throw. That line is not reached first: every log's department is one of the 20 values, so the departmental table (line 103) calls `calculateUtilization` on the log first, and line 85 throws there. The `employeeMetrics` copy of the bug is therefore not modelled separately. | One log whose employee name is "constructor" (or "toString", "valueOf", "__proto__", ...). The KPI computation throws, and the dashboard cannot render. | A dictionary without inherited keys, such as a `Map` or `Object.create(null)`. Then utilization and the leaderboard are defined for every name. | not executed | PlainObjects.WorkDaysAsWritten (shown by PlainObjects.ConstructorNameThrows) | Engine.CalculateUtilization (with Engine.CollectWorkDays) |
