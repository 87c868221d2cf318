/** The closed enumerations and record shapes of the productivity dashboard
    (ais-dashboard-final/types.ts). Dates are day numbers (days since
    1970-01-01), hours and rates are exact reals. */
module Types {

  datatype Option<T> = None | Some(value: T) {
    function GetOr(default: T): T {
      match this
      case Some(v) => v
      case None => default
    }
  }

  /** A calendar day, counted in days since 1970-01-01. */
  type Day = int

  datatype Department =
    | DataManagement | AccountsFinance | AdminHr | IT | Hse | Procurement
    | Coordination | Maintenance | Janitorial | Inventory | CoringWellsite
    | Iso | Environmental | Reception | CtImagingGamma | Rockshop | PvtGc
    | ScalRoutine | BusinessDevelopment | Security

  /** The string value of each enum member. */
  function DepartmentName(d: Department): string {
    match d
    case DataManagement => "Data Management"
    case AccountsFinance => "Accounts/Finance"
    case AdminHr => "Admin/HR"
    case IT => "IT"
    case Hse => "HSE"
    case Procurement => "Procurement"
    case Coordination => "Coordination"
    case Maintenance => "Maintenance"
    case Janitorial => "Janitorial"
    case Inventory => "Inventory"
    case CoringWellsite => "Coring/Wellsite"
    case Iso => "Iso"
    case Environmental => "Environmental"
    case Reception => "Reception"
    case CtImagingGamma => "CT/Imaging/Gamma"
    case Rockshop => "Rockshop"
    case PvtGc => "PVT/GC"
    case ScalRoutine => "Scal/Routine"
    case BusinessDevelopment => "Business Development"
    case Security => "Security"
  }

  /** Object.values(Department): the members in declaration order. */
  const AllDepartments: seq<Department> := [
    DataManagement, AccountsFinance, AdminHr, IT, Hse, Procurement,
    Coordination, Maintenance, Janitorial, Inventory, CoringWellsite,
    Iso, Environmental, Reception, CtImagingGamma, Rockshop, PvtGc,
    ScalRoutine, BusinessDevelopment, Security]

  /** Position of a member in the declaration order. */
  function DepartmentIndex(d: Department): (i: nat)
    ensures i < |AllDepartments| && AllDepartments[i] == d
  {
    match d
    case DataManagement => 0
    case AccountsFinance => 1
    case AdminHr => 2
    case IT => 3
    case Hse => 4
    case Procurement => 5
    case Coordination => 6
    case Maintenance => 7
    case Janitorial => 8
    case Inventory => 9
    case CoringWellsite => 10
    case Iso => 11
    case Environmental => 12
    case Reception => 13
    case CtImagingGamma => 14
    case Rockshop => 15
    case PvtGc => 16
    case ScalRoutine => 17
    case BusinessDevelopment => 18
    case Security => 19
  }

  /** Reading a department back from its string value (`name as Department`),
      dispatching on the first character. */
  function DepartmentFromName(s: string): Option<Department> {
    if s == [] then None
    else
      match s[0]
      case 'A' =>
        if s == "Accounts/Finance" then Some(AccountsFinance)
        else if s == "Admin/HR" then Some(AdminHr)
        else None
      case 'B' => if s == "Business Development" then Some(BusinessDevelopment) else None
      case 'C' =>
        if s == "Coordination" then Some(Coordination)
        else if s == "Coring/Wellsite" then Some(CoringWellsite)
        else if s == "CT/Imaging/Gamma" then Some(CtImagingGamma)
        else None
      case 'D' => if s == "Data Management" then Some(DataManagement) else None
      case 'E' => if s == "Environmental" then Some(Environmental) else None
      case 'H' => if s == "HSE" then Some(Hse) else None
      case 'I' =>
        if s == "IT" then Some(IT)
        else if s == "Inventory" then Some(Inventory)
        else if s == "Iso" then Some(Iso)
        else None
      case 'J' => if s == "Janitorial" then Some(Janitorial) else None
      case 'M' => if s == "Maintenance" then Some(Maintenance) else None
      case 'P' =>
        if s == "Procurement" then Some(Procurement)
        else if s == "PVT/GC" then Some(PvtGc)
        else None
      case 'R' =>
        if s == "Reception" then Some(Reception)
        else if s == "Rockshop" then Some(Rockshop)
        else None
      case 'S' =>
        if s == "Scal/Routine" then Some(ScalRoutine)
        else if s == "Security" then Some(Security)
        else None
      case _ => None
  }

  /** The 20 members are pairwise distinct and each appears in the enumeration. */
  lemma DepartmentEnumeration()
    ensures |AllDepartments| == 20
    ensures forall i, j :: 0 <= i < j < |AllDepartments| ==> AllDepartments[i] != AllDepartments[j]
    ensures forall d: Department :: d in AllDepartments
  {
    forall i, j | 0 <= i < j < |AllDepartments|
      ensures AllDepartments[i] != AllDepartments[j]
    {
      assert DepartmentIndex(AllDepartments[i]) == i;
      assert DepartmentIndex(AllDepartments[j]) == j;
    }
    forall d: Department ensures d in AllDepartments {
      assert AllDepartments[DepartmentIndex(d)] == d;
    }
  }

  /** The string value determines the member, so grouping by string is unambiguous. */
  lemma DepartmentNameRoundTrip(d: Department)
    ensures DepartmentFromName(DepartmentName(d)) == Some(d)
    ensures DepartmentName(d) != "" && DepartmentName(d) != "N/A"
  {
    match d
    case DataManagement =>
    case AccountsFinance =>
    case AdminHr =>
    case IT =>
    case Hse =>
    case Procurement =>
    case Coordination =>
    case Maintenance =>
    case Janitorial =>
    case Inventory =>
    case CoringWellsite =>
    case Iso =>
    case Environmental =>
    case Reception =>
    case CtImagingGamma =>
    case Rockshop =>
    case PvtGc =>
    case ScalRoutine =>
    case BusinessDevelopment =>
    case Security =>
  }

  lemma DepartmentNameInjective(d1: Department, d2: Department)
    ensures DepartmentName(d1) == DepartmentName(d2) <==> d1 == d2
  {
    DepartmentNameRoundTrip(d1);
    DepartmentNameRoundTrip(d2);
  }

  datatype TaskCategory =
    | MaintenanceTask | ContractTender | CoordinationTask | InventoryTask
    | Training | Reporting | ItTask | Admin | Invoice | ProcurementTask
    | HouseKeeping

  function CategoryName(c: TaskCategory): string {
    match c
    case MaintenanceTask => "Maintenance"
    case ContractTender => "Contract/Tender"
    case CoordinationTask => "Coordination"
    case InventoryTask => "Inventory"
    case Training => "Training"
    case Reporting => "Reporting"
    case ItTask => "IT"
    case Admin => "Admin"
    case Invoice => "Invoice"
    case ProcurementTask => "Procurement"
    case HouseKeeping => "House Keeping"
  }

  const AllCategories: seq<TaskCategory> := [
    MaintenanceTask, ContractTender, CoordinationTask, InventoryTask,
    Training, Reporting, ItTask, Admin, Invoice, ProcurementTask, HouseKeeping]

  function CategoryFromName(s: string): Option<TaskCategory> {
    if s == "Maintenance" then Some(MaintenanceTask)
    else if s == "Contract/Tender" then Some(ContractTender)
    else if s == "Coordination" then Some(CoordinationTask)
    else if s == "Inventory" then Some(InventoryTask)
    else if s == "Training" then Some(Training)
    else if s == "Reporting" then Some(Reporting)
    else if s == "IT" then Some(ItTask)
    else if s == "Admin" then Some(Admin)
    else if s == "Invoice" then Some(Invoice)
    else if s == "Procurement" then Some(ProcurementTask)
    else if s == "House Keeping" then Some(HouseKeeping)
    else None
  }

  /** The 11 categories are pairwise distinct by their string values. */
  lemma CategoryNameRoundTrip(c: TaskCategory)
    ensures CategoryFromName(CategoryName(c)) == Some(c)
  {
    match c
    case MaintenanceTask =>
    case ContractTender =>
    case CoordinationTask =>
    case InventoryTask =>
    case Training =>
    case Reporting =>
    case ItTask =>
    case Admin =>
    case Invoice =>
    case ProcurementTask =>
    case HouseKeeping =>
  }

  lemma CategoryEnumeration()
    ensures |AllCategories| == 11
    ensures forall c: TaskCategory :: c in AllCategories
    ensures forall c1: TaskCategory, c2: TaskCategory :: CategoryName(c1) == CategoryName(c2) ==> c1 == c2
  {
    forall c: TaskCategory ensures c in AllCategories {
      match c
      case MaintenanceTask => assert AllCategories[0] == c;
      case ContractTender => assert AllCategories[1] == c;
      case CoordinationTask => assert AllCategories[2] == c;
      case InventoryTask => assert AllCategories[3] == c;
      case Training => assert AllCategories[4] == c;
      case Reporting => assert AllCategories[5] == c;
      case ItTask => assert AllCategories[6] == c;
      case Admin => assert AllCategories[7] == c;
      case Invoice => assert AllCategories[8] == c;
      case ProcurementTask => assert AllCategories[9] == c;
      case HouseKeeping => assert AllCategories[10] == c;
    }
    forall c1: TaskCategory, c2: TaskCategory | CategoryName(c1) == CategoryName(c2) ensures c1 == c2 {
      CategoryNameRoundTrip(c1);
      CategoryNameRoundTrip(c2);
    }
  }

  datatype TaskStatus = Complete | InProgress | Incomplete

  function StatusName(st: TaskStatus): string {
    match st
    case Complete => "Complete"
    case InProgress => "In Progress"
    case Incomplete => "Incomplete"
  }

  /** Object.values(TaskStatus) / the key order of the status counter. */
  const AllStatuses: seq<TaskStatus> := [Complete, InProgress, Incomplete]

  function StatusFromName(s: string): Option<TaskStatus> {
    if s == "Complete" then Some(Complete)
    else if s == "In Progress" then Some(InProgress)
    else if s == "Incomplete" then Some(Incomplete)
    else None
  }

  lemma StatusEnumeration()
    ensures |AllStatuses| == 3
    ensures forall st: TaskStatus :: st in AllStatuses
    ensures forall st: TaskStatus :: StatusFromName(StatusName(st)) == Some(st)
  {
    forall st: TaskStatus ensures st in AllStatuses && StatusFromName(StatusName(st)) == Some(st) {
      match st
      case Complete =>
      case InProgress =>
      case Incomplete =>
    }
  }

  /** One task's worth of work on one day by one employee. The rating is
      documented as 1-5; 0 means "unrated". */
  datatype ProductivityLog = ProductivityLog(
    id: string,
    employeeName: string,
    employeeId: string,
    department: Department,
    date: Day,
    taskCategory: TaskCategory,
    taskDescription: string,
    taskStatus: TaskStatus,
    hours: real,
    productivityRating: int,
    blockers: string,
    tasksCarriedOver: Option<string>)

  /** One row of the multi-task entry form. */
  datatype TaskItem = TaskItem(
    id: string,
    taskDescription: string,
    taskCategory: TaskCategory,
    taskStatus: TaskStatus)

  /** The shared per-day fields plus the list of tasks. */
  datatype DailyLogSubmission = DailyLogSubmission(
    employeeName: string,
    employeeId: string,
    department: Department,
    date: Day,
    hours: real,
    productivityRating: int,
    blockers: string,
    tasksCarriedOver: Option<string>,
    tasks: seq<TaskItem>)

  /** `reworkRate` is a placeholder that the engine always sets to 0. */
  datatype ExecutiveStats = ExecutiveStats(
    totalTasks: nat,
    completedTasks: nat,
    completionRate: real,
    avgTaskDuration: real,
    topPerformingDept: string,
    leastPerformingDept: string,
    overallUtilizationRate: real,
    reworkRate: real)

  datatype EmployeeStats = EmployeeStats(
    name: string,
    completedTasks: nat,
    avgTaskDuration: real,
    utilizationRate: real)

  datatype DepartmentStats = DepartmentStats(
    department: Department,
    totalTasks: nat,
    completionRate: real,
    avgTaskDuration: real,
    utilizationRate: real)

  /** The point's date label is a display string in the source; here it is the day itself. */
  datatype DailyTrendPoint = DailyTrendPoint(
    date: Day,
    totalTasks: nat,
    completedTasks: nat)

  datatype TaskStatusDistributionPoint = TaskStatusDistributionPoint(
    name: TaskStatus,
    value: nat)

  datatype DataQualityStats = DataQualityStats(
    formCompletenessScore: real,
    missingTimeEntries: real)

  datatype KpiData = KpiData(
    executiveSummary: ExecutiveStats,
    employeeLeaderboard: seq<EmployeeStats>,
    departmentalPerformance: seq<DepartmentStats>,
    dailyTrend: seq<DailyTrendPoint>,
    taskStatusDistribution: seq<TaskStatusDistributionPoint>,
    dataQuality: DataQualityStats)
}
