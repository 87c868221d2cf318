/** The dashboard page: the filter state with its reset button, and the CSV
    export of the logs in view (pages/DashboardPage.tsx). The export writes
    one header record and one record per log, fields joined by commas and
    records by line feeds; five free-text fields go through the cell escaper
    and the other seven are written as they are. */
module Dashboard {
  import opened Types
  import opened Engine
  import opened CsvReader

  // ---------------------------------------------------------------- filters

  /** The filter state the page shares with the productivity hook. An empty
      date field is `None`; an empty department or employee is "". */
  class DashboardFilters {
    var start: Option<Day>
    var end: Option<Day>
    var department: string
    var employee: string

    function Current(): Criteria
      reads this
    {
      Criteria(start, end, department, employee)
    }

    /** The state the application starts with: every filter empty. */
    constructor ()
      ensures Current() == NoCriteria
    {
      start := None;
      end := None;
      department := "";
      employee := "";
    }

    /** The reset button: every filter back to empty, so that the hook's
        filter keeps every log. */
    method ResetFilters()
      modifies this
      ensures Current() == NoCriteria
      ensures forall logs: seq<ProductivityLog> :: FilterLogs(logs, Current()) == logs
    {
      start, end, department, employee := None, None, "", "";
      forall logs: seq<ProductivityLog>
        ensures FilterLogs(logs, Current()) == logs
      {
        FilterNoCriteria(logs);
      }
    }

    /** The start-date input; the other filters are kept. */
    method SetStart(value: Option<Day>)
      modifies this
      ensures Current() == old(Current()).(start := value)
    {
      start := value;
    }

    /** The end-date input; the other filters are kept. */
    method SetEnd(value: Option<Day>)
      modifies this
      ensures Current() == old(Current()).(end := value)
    {
      end := value;
    }

    /** The department selector; the other filters are kept. */
    method SetDepartment(value: string)
      modifies this
      ensures Current() == old(Current()).(department := value)
    {
      department := value;
    }

    /** The employee selector; the other filters are kept. */
    method SetEmployee(value: string)
      modifies this
      ensures Current() == old(Current()).(employee := value)
    {
      employee := value;
    }
  }

  // ---------------------------------------------------------------- cells

  /** Every double quote written twice. */
  function DoubleQuotes(s: string): (r: string)
    ensures |r| == |s| + QuoteCount(s)
  {
    if s == [] then []
    else (if s[0] == Quote then [Quote, Quote] else [s[0]]) + DoubleQuotes(s[1..])
  }

  function QuoteCount(s: string): nat {
    if s == [] then 0 else (if s[0] == Quote then 1 else 0) + QuoteCount(s[1..])
  }

  /** The cell escaper: a value holding a quote, comma, line feed or
      carriage return is wrapped in quotes with its quotes doubled; any
      other value is written unchanged. */
  function EscapeCsvCell(value: string): (r: string)
    ensures IsPlain(value) ==> r == value
    ensures !IsPlain(value) ==>
      && |r| == |value| + 2 + QuoteCount(value)
      && r[0] == Quote && r[|r| - 1] == Quote
  {
    if IsPlain(value) then value else [Quote] + DoubleQuotes(value) + [Quote]
  }

  /** A missing optional value is written as the empty string. */
  function CellText(value: Option<string>): (r: string)
    ensures value.None? ==> r == ""
    ensures value.Some? ==> r == value.value
  {
    if value.Some? then value.value else ""
  }

  /** The parts with the separator between each two. */
  function Join(parts: seq<string>, sep: char): (r: string)
    ensures |parts| == 1 ==> r == parts[0]
  {
    if |parts| == 0 then []
    else if |parts| == 1 then parts[0]
    else parts[0] + [sep] + Join(parts[1..], sep)
  }

  // ---------------------------------------------------------------- numbers

  function Digit(d: nat): char
    requires d < 10
  {
    "0123456789"[d]
  }

  /** The decimal text of a whole number, as String() writes it. */
  function NatText(n: nat): (r: string)
    ensures |r| >= 1
    ensures forall i :: 0 <= i < |r| ==> '0' <= r[i] <= '9'
  {
    if n < 10 then [Digit(n)] else NatText(n / 10) + [Digit(n % 10)]
  }

  function IntText(n: int): string {
    if n < 0 then "-" + NatText(-n) else NatText(n)
  }

  /** The value a string of decimal digits denotes. */
  function DecimalValue(s: string): nat {
    if s == [] then 0
    else
      var c := s[|s| - 1];
      DecimalValue(s[..|s| - 1]) * 10 + (if '0' <= c <= '9' then (c as int - '0' as int) else 0)
  }

  lemma DigitValue(d: nat)
    requires d < 10
    ensures '0' <= Digit(d) <= '9'
    ensures Digit(d) as int - '0' as int == d
  {
  }

  lemma {:induction false} NatTextRoundTrip(n: nat)
    ensures DecimalValue(NatText(n)) == n
    decreases n
  {
    var s := NatText(n);
    DigitValue(n % 10);
    if n < 10 {
      assert s == [Digit(n)];
      assert s[..|s| - 1] == [];
    } else {
      assert s[..|s| - 1] == NatText(n / 10);
      assert s[|s| - 1] == Digit(n % 10);
      NatTextRoundTrip(n / 10);
    }
  }

  lemma IntTextPlain(n: int)
    ensures IsPlain(IntText(n))
  {
    var s := IntText(n);
    var t := NatText(if n < 0 then -n else n);
    assert forall i :: 0 <= i < |t| ==> '0' <= t[i] <= '9';
  }

  // ---------------------------------------------------------------- export

  const Headers: seq<string> := [
    "ID", "Date", "Employee Name", "Employee ID", "Department",
    "Task Category", "Task Description", "Task Status", "Hours",
    "Productivity Rating", "Blockers", "Tasks Carried Over"
  ]

  /** The twelve values of a log, in header order, before any escaping.
      Dates and hours are written by the given formatters. */
  function LogFields(log: ProductivityLog, dateText: Day -> string, numberText: real -> string): (r: seq<string>)
    ensures |r| == 12
  {
    [ log.id, dateText(log.date), log.employeeName, log.employeeId,
      DepartmentName(log.department), CategoryName(log.taskCategory),
      log.taskDescription, StatusName(log.taskStatus), numberText(log.hours),
      IntText(log.productivityRating), log.blockers, CellText(log.tasksCarriedOver) ]
  }

  /** The cells of one exported record: the five free-text fields escaped,
      the rest written as they are. */
  function LogCells(log: ProductivityLog, dateText: Day -> string, numberText: real -> string): (r: seq<string>)
    ensures |r| == 12
  {
    [ log.id, dateText(log.date), EscapeCsvCell(log.employeeName),
      EscapeCsvCell(log.employeeId), DepartmentName(log.department),
      CategoryName(log.taskCategory), EscapeCsvCell(log.taskDescription),
      StatusName(log.taskStatus), numberText(log.hours),
      IntText(log.productivityRating), EscapeCsvCell(log.blockers),
      EscapeCsvCell(CellText(log.tasksCarriedOver)) ]
  }

  function LogRow(log: ProductivityLog, dateText: Day -> string, numberText: real -> string): string {
    Join(LogCells(log, dateText, numberText), Comma)
  }

  function LogRows(logs: seq<ProductivityLog>, dateText: Day -> string, numberText: real -> string): (r: seq<string>)
    ensures |r| == |logs|
    ensures forall i :: 0 <= i < |logs| ==> r[i] == LogRow(logs[i], dateText, numberText)
  {
    if logs == [] then [] else [LogRow(logs[0], dateText, numberText)] + LogRows(logs[1..], dateText, numberText)
  }

  function CsvText(logs: seq<ProductivityLog>, dateText: Day -> string, numberText: real -> string): string {
    Join([Join(Headers, Comma)] + LogRows(logs, dateText, numberText), LineFeed)
  }

  /** The export button: nothing to export when no log is in view. */
  function ExportData(logs: seq<ProductivityLog>, dateText: Day -> string, numberText: real -> string): (r: Option<string>)
    ensures r.None? <==> logs == []
  {
    if |logs| == 0 then None else Some(CsvText(logs, dateText, numberText))
  }

  // ---------------------------------------------------------------- reading back

  /** Each value escaped, joined by commas. */
  function EncodeRecord(values: seq<string>): string {
    Join(EscapedCells(values), Comma)
  }

  function EscapedCells(values: seq<string>): (r: seq<string>)
    ensures |r| == |values|
    ensures forall i :: 0 <= i < |values| ==> r[i] == EscapeCsvCell(values[i])
  {
    if values == [] then [] else [EscapeCsvCell(values[0])] + EscapedCells(values[1..])
  }

  function EncodedRecords(records: seq<seq<string>>): (r: seq<string>)
    ensures |r| == |records|
    ensures forall i :: 0 <= i < |records| ==> r[i] == EncodeRecord(records[i])
  {
    if records == [] then [] else [EncodeRecord(records[0])] + EncodedRecords(records[1..])
  }

  function EncodeDocument(records: seq<seq<string>>): string {
    Join(EncodedRecords(records), LineFeed)
  }

  lemma {:induction false} BareRoundTrip(v: string, rest: string)
    requires IsPlain(v) && AtFieldEnd(rest)
    ensures ParseBare(v + rest) == (v, rest)
    decreases |v|
  {
    if v == [] {
      assert v + rest == rest;
    } else {
      assert v[0] in v;
      assert (v + rest)[0] == v[0];
      assert !AtFieldEnd(v + rest);
      assert (v + rest)[1..] == v[1..] + rest;
      BareRoundTrip(v[1..], rest);
      assert [v[0]] + v[1..] == v;
    }
  }

  lemma {:induction false} QuotedRoundTrip(v: string, rest: string)
    requires rest == [] || rest[0] != Quote
    ensures ParseQuoted(DoubleQuotes(v) + [Quote] + rest) == Some((v, rest))
    decreases |v|
  {
    var s := DoubleQuotes(v) + [Quote] + rest;
    if v == [] {
      assert s == [Quote] + rest;
      assert s[1..] == rest;
    } else if v[0] == Quote {
      assert s == [Quote, Quote] + (DoubleQuotes(v[1..]) + [Quote] + rest);
      assert s[2..] == DoubleQuotes(v[1..]) + [Quote] + rest;
      QuotedRoundTrip(v[1..], rest);
      assert [Quote] + v[1..] == v;
    } else {
      assert s == [v[0]] + (DoubleQuotes(v[1..]) + [Quote] + rest);
      assert s[1..] == DoubleQuotes(v[1..]) + [Quote] + rest;
      QuotedRoundTrip(v[1..], rest);
      assert [v[0]] + v[1..] == v;
    }
  }

  /** An escaped cell reads back as the value it came from. */
  lemma FieldRoundTrip(v: string, rest: string)
    requires AtFieldEnd(rest)
    ensures ParseField(EscapeCsvCell(v) + rest) == Some((v, rest))
  {
    if IsPlain(v) {
      PlainFieldRoundTrip(v, rest);
    } else {
      QuotedFieldRoundTrip(v, rest);
    }
  }

  lemma PlainFieldRoundTrip(v: string, rest: string)
    requires IsPlain(v) && AtFieldEnd(rest)
    ensures ParseField(v + rest) == Some((v, rest))
  {
    if v != [] {
      assert v[0] in v;
      assert (v + rest)[0] == v[0];
    } else {
      assert v + rest == rest;
    }
    BareRoundTrip(v, rest);
  }

  lemma QuotedFieldRoundTrip(v: string, rest: string)
    requires AtFieldEnd(rest)
    ensures ParseField([Quote] + DoubleQuotes(v) + [Quote] + rest) == Some((v, rest))
  {
    var s := [Quote] + DoubleQuotes(v) + [Quote] + rest;
    assert s == [Quote] + (DoubleQuotes(v) + [Quote] + rest);
    assert s[1..] == DoubleQuotes(v) + [Quote] + rest;
    QuotedRoundTrip(v, rest);
  }

  lemma {:induction false} RecordRoundTrip(values: seq<string>, rest: string)
    requires |values| >= 1
    requires rest == [] || rest[0] == LineFeed
    ensures ParseRecord(EncodeRecord(values) + rest) == Some((values, rest))
    decreases |values|
  {
    var cells := EscapedCells(values);
    if |values| == 1 {
      FieldRoundTrip(values[0], rest);
      assert [values[0]] == values;
    } else {
      assert cells[1..] == EscapedCells(values[1..]);
      var tail := EncodeRecord(values[1..]) + rest;
      assert EncodeRecord(values) + rest == EscapeCsvCell(values[0]) + ([Comma] + tail);
      FieldRoundTrip(values[0], [Comma] + tail);
      assert ([Comma] + tail)[1..] == tail;
      RecordRoundTrip(values[1..], rest);
      assert [values[0]] + values[1..] == values;
    }
  }

  /** A document of non-empty records reads back record by record. */
  lemma {:induction false} DocumentRoundTrip(records: seq<seq<string>>)
    requires |records| >= 1
    requires forall i :: 0 <= i < |records| ==> |records[i]| >= 1
    ensures ParseDocument(EncodeDocument(records)) == Some(records)
    decreases |records|
  {
    var lines := EncodedRecords(records);
    if |records| == 1 {
      RecordRoundTrip(records[0], []);
      assert EncodeRecord(records[0]) + [] == EncodeRecord(records[0]);
      assert [records[0]] == records;
    } else {
      assert lines[1..] == EncodedRecords(records[1..]);
      var tail := EncodeDocument(records[1..]);
      assert EncodeDocument(records) == EncodeRecord(records[0]) + ([LineFeed] + tail);
      RecordRoundTrip(records[0], [LineFeed] + tail);
      assert ([LineFeed] + tail)[1..] == tail;
      DocumentRoundTrip(records[1..]);
      assert [records[0]] + records[1..] == records;
    }
  }

  /** The names the export writes unescaped hold no special character.
      Each group of names is checked in a lemma of its own. */
  lemma DepartmentNamePlain(d: Department)
    ensures IsPlain(DepartmentName(d))
  {
    if d.DataManagement? || d.AccountsFinance? || d.AdminHr? || d.IT? {
      FirstDepartmentsPlain(d);
    } else if d.Hse? || d.Procurement? || d.Coordination? || d.Maintenance? {
      SecondDepartmentsPlain(d);
    } else if d.Janitorial? || d.Inventory? || d.CoringWellsite? || d.Iso? {
      ThirdDepartmentsPlain(d);
    } else if d.Environmental? || d.Reception? || d.CtImagingGamma? || d.Rockshop? {
      FourthDepartmentsPlain(d);
    } else {
      FifthDepartmentsPlain(d);
    }
  }

  lemma FirstDepartmentsPlain(d: Department)
    requires d.DataManagement? || d.AccountsFinance? || d.AdminHr? || d.IT?
    ensures IsPlain(DepartmentName(d))
  {
  }

  lemma SecondDepartmentsPlain(d: Department)
    requires d.Hse? || d.Procurement? || d.Coordination? || d.Maintenance?
    ensures IsPlain(DepartmentName(d))
  {
  }

  lemma ThirdDepartmentsPlain(d: Department)
    requires d.Janitorial? || d.Inventory? || d.CoringWellsite? || d.Iso?
    ensures IsPlain(DepartmentName(d))
  {
  }

  lemma FourthDepartmentsPlain(d: Department)
    requires d.Environmental? || d.Reception? || d.CtImagingGamma? || d.Rockshop?
    ensures IsPlain(DepartmentName(d))
  {
  }

  lemma FifthDepartmentsPlain(d: Department)
    requires d.PvtGc? || d.ScalRoutine? || d.BusinessDevelopment? || d.Security?
    ensures IsPlain(DepartmentName(d))
  {
  }

  lemma CategoryNamePlain(t: TaskCategory)
    ensures IsPlain(CategoryName(t))
  {
    if t.MaintenanceTask? || t.ContractTender? || t.CoordinationTask? || t.InventoryTask? {
      FirstCategoriesPlain(t);
    } else if t.Training? || t.Reporting? || t.ItTask? || t.Admin? {
      SecondCategoriesPlain(t);
    } else {
      ThirdCategoriesPlain(t);
    }
  }

  lemma FirstCategoriesPlain(t: TaskCategory)
    requires t.MaintenanceTask? || t.ContractTender? || t.CoordinationTask? || t.InventoryTask?
    ensures IsPlain(CategoryName(t))
  {
  }

  lemma SecondCategoriesPlain(t: TaskCategory)
    requires t.Training? || t.Reporting? || t.ItTask? || t.Admin?
    ensures IsPlain(CategoryName(t))
  {
  }

  lemma ThirdCategoriesPlain(t: TaskCategory)
    requires t.Invoice? || t.ProcurementTask? || t.HouseKeeping?
    ensures IsPlain(CategoryName(t))
  {
  }

  lemma StatusNamePlain(st: TaskStatus)
    ensures IsPlain(StatusName(st))
  {
  }

  lemma HeadersArePlain()
    ensures forall i :: 0 <= i < |Headers| ==> IsPlain(Headers[i])
  {
    FirstHeadersPlain();
    SecondHeadersPlain();
    ThirdHeadersPlain();
  }

  lemma FirstHeadersPlain()
    ensures forall i :: 0 <= i < 4 ==> IsPlain(Headers[i])
  {
  }

  lemma SecondHeadersPlain()
    ensures forall i :: 4 <= i < 8 ==> IsPlain(Headers[i])
  {
  }

  lemma ThirdHeadersPlain()
    ensures forall i :: 8 <= i < 12 ==> IsPlain(Headers[i])
  {
  }

  /** The fields a record writes without escaping are safe when the log's id
      and the formatted date and hours are. */
  predicate PlainUnescaped(log: ProductivityLog, dateText: Day -> string, numberText: real -> string) {
    IsPlain(log.id) && IsPlain(dateText(log.date)) && IsPlain(numberText(log.hours))
  }

  lemma LogRowEncodes(log: ProductivityLog, dateText: Day -> string, numberText: real -> string)
    requires PlainUnescaped(log, dateText, numberText)
    ensures LogRow(log, dateText, numberText) == EncodeRecord(LogFields(log, dateText, numberText))
  {
    DepartmentNamePlain(log.department);
    CategoryNamePlain(log.taskCategory);
    StatusNamePlain(log.taskStatus);
    IntTextPlain(log.productivityRating);
    RecordCellsEscaped(log.id, dateText(log.date), log.employeeName, log.employeeId,
      DepartmentName(log.department), CategoryName(log.taskCategory),
      log.taskDescription, StatusName(log.taskStatus), numberText(log.hours),
      IntText(log.productivityRating), log.blockers, CellText(log.tasksCarriedOver));
  }

  /** Escaping a record whose seven unescaped columns are plain gives the
      cells the export writes: only the five free-text columns change. */
  lemma RecordCellsEscaped(id: string, date: string, name: string, employeeId: string,
      department: string, category: string, description: string, status: string,
      hours: string, rating: string, blockers: string, carried: string)
    requires IsPlain(id) && IsPlain(date) && IsPlain(department) && IsPlain(category)
    requires IsPlain(status) && IsPlain(hours) && IsPlain(rating)
    ensures EscapedCells([id, date, name, employeeId, department, category, description,
        status, hours, rating, blockers, carried])
      == [id, date, EscapeCsvCell(name), EscapeCsvCell(employeeId), department, category,
        EscapeCsvCell(description), status, hours, rating, EscapeCsvCell(blockers),
        EscapeCsvCell(carried)]
  {
    var values := [id, date, name, employeeId, department, category, description,
      status, hours, rating, blockers, carried];
    var cells := EscapedCells(values);
    var row := [id, date, EscapeCsvCell(name), EscapeCsvCell(employeeId), department, category,
      EscapeCsvCell(description), status, hours, rating, EscapeCsvCell(blockers),
      EscapeCsvCell(carried)];
    forall i | 0 <= i < 12
      ensures cells[i] == row[i]
    {
      assert cells[i] == EscapeCsvCell(values[i]);
    }
  }

  /** Each log's fields, in view order. */
  function LogRecords(logs: seq<ProductivityLog>, dateText: Day -> string, numberText: real -> string): (r: seq<seq<string>>)
    ensures |r| == |logs|
    ensures forall i :: 0 <= i < |logs| ==> r[i] == LogFields(logs[i], dateText, numberText)
  {
    if logs == [] then [] else [LogFields(logs[0], dateText, numberText)] + LogRecords(logs[1..], dateText, numberText)
  }

  /** The records of the export, before escaping: the header, then each log's
      fields in view order. */
  function ExportRecords(logs: seq<ProductivityLog>, dateText: Day -> string, numberText: real -> string): (r: seq<seq<string>>)
    ensures |r| == |logs| + 1
    ensures r[0] == Headers
    ensures forall i :: 1 <= i < |r| ==> r[i] == LogFields(logs[i - 1], dateText, numberText)
  {
    var records := LogRecords(logs, dateText, numberText);
    assert forall i :: 1 <= i < |records| + 1 ==> ([Headers] + records)[i] == records[i - 1];
    [Headers] + records
  }

  /** Every exported record has the twelve columns of the header. */
  lemma ExportRecordsWidth(logs: seq<ProductivityLog>, dateText: Day -> string, numberText: real -> string)
    ensures forall i :: 0 <= i < |logs| + 1 ==> |ExportRecords(logs, dateText, numberText)[i]| == |Headers|
  {
    var records := ExportRecords(logs, dateText, numberText);
    forall i | 0 <= i < |records|
      ensures |records[i]| == |Headers|
    {
      if i > 0 {
        assert records[i] == LogFields(logs[i - 1], dateText, numberText);
      }
    }
  }

  /** A record of plain values is written unchanged. */
  lemma PlainRecordEncodes(values: seq<string>)
    requires forall i :: 0 <= i < |values| ==> IsPlain(values[i])
    ensures Join(values, Comma) == EncodeRecord(values)
  {
    SameJoin(values, EscapedCells(values), Comma);
  }

  /** Line i of a document whose first line is a plain header and whose
      other lines encode the given records, encodes record i. */
  lemma LineEncodes(header: seq<string>, rows: seq<string>, records: seq<seq<string>>, i: nat)
    requires forall k :: 0 <= k < |header| ==> IsPlain(header[k])
    requires |rows| == |records|
    requires forall k :: 0 <= k < |rows| ==> rows[k] == EncodeRecord(records[k])
    requires i <= |rows|
    ensures ([Join(header, Comma)] + rows)[i] == EncodedRecords([header] + records)[i]
  {
    var lines := [Join(header, Comma)] + rows;
    var all := [header] + records;
    assert EncodedRecords(all)[i] == EncodeRecord(all[i]);
    if i == 0 {
      PlainRecordEncodes(header);
      assert all[0] == header;
    } else {
      assert lines[i] == rows[i - 1];
      assert all[i] == records[i - 1];
    }
  }

  lemma LinesEncode(header: seq<string>, rows: seq<string>, records: seq<seq<string>>)
    requires forall k :: 0 <= k < |header| ==> IsPlain(header[k])
    requires |rows| == |records|
    requires forall k :: 0 <= k < |rows| ==> rows[k] == EncodeRecord(records[k])
    ensures Join([Join(header, Comma)] + rows, LineFeed) == EncodeDocument([header] + records)
  {
    var lines := [Join(header, Comma)] + rows;
    var encoded := EncodedRecords([header] + records);
    forall i | 0 <= i < |lines|
      ensures lines[i] == encoded[i]
    {
      LineEncodes(header, rows, records, i);
    }
    SameJoin(lines, encoded, LineFeed);
  }

  /** Each log line is the encoding of that log's fields. */
  lemma LogLinesEncode(logs: seq<ProductivityLog>, dateText: Day -> string, numberText: real -> string)
    requires forall k :: 0 <= k < |logs| ==> PlainUnescaped(logs[k], dateText, numberText)
    ensures var rows := LogRows(logs, dateText, numberText);
      forall k :: 0 <= k < |rows| ==> rows[k] == EncodeRecord(LogRecords(logs, dateText, numberText)[k])
  {
    forall k | 0 <= k < |logs|
      ensures LogRows(logs, dateText, numberText)[k] == EncodeRecord(LogRecords(logs, dateText, numberText)[k])
    {
      LogRowEncodes(logs[k], dateText, numberText);
    }
  }

  /** The exported text is the encoding of the header and the log fields. */
  lemma CsvTextEncodes(logs: seq<ProductivityLog>, dateText: Day -> string, numberText: real -> string)
    requires forall i :: 0 <= i < |logs| ==> PlainUnescaped(logs[i], dateText, numberText)
    ensures CsvText(logs, dateText, numberText) == EncodeDocument(ExportRecords(logs, dateText, numberText))
  {
    HeadersArePlain();
    LogLinesEncode(logs, dateText, numberText);
    LinesEncode(Headers, LogRows(logs, dateText, numberText), LogRecords(logs, dateText, numberText));
  }

  lemma SameJoin(a: seq<string>, b: seq<string>, sep: char)
    requires |a| == |b|
    requires forall i :: 0 <= i < |a| ==> a[i] == b[i]
    ensures Join(a, sep) == Join(b, sep)
  {
    assert a == b;
  }

  /** Reading the exported file back yields the header and every log's twelve
      values, free text included, whatever commas, quotes or line breaks it
      holds. */
  lemma ExportRoundTrip(logs: seq<ProductivityLog>, dateText: Day -> string, numberText: real -> string)
    requires forall i :: 0 <= i < |logs| ==> PlainUnescaped(logs[i], dateText, numberText)
    ensures logs != [] ==> ExportData(logs, dateText, numberText).Some?
    ensures logs != [] ==>
      ParseDocument(ExportData(logs, dateText, numberText).value) == Some(ExportRecords(logs, dateText, numberText))
  {
    if logs != [] {
      var records := ExportRecords(logs, dateText, numberText);
      CsvTextEncodes(logs, dateText, numberText);
      ExportRecordsWidth(logs, dateText, numberText);
      DocumentRoundTrip(records);
    }
  }
}
