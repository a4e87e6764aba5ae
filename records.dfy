/** The three persisted record kinds of the backend (users, tasks and
    performance-log entries), with the defaults and validators their
    schemas declare. */
module Records {

  type UserId = nat
  type TaskId = nat
  type CompanyId = nat

  /** An instant on the clock. */
  type Time = int

  /** A calendar day, written as the instant of the local midnight that starts it. */
  type Day = int

  datatype Option<T> = None | Some(value: T)

  /** The optional, inclusive `startDate` / `endDate` filters of a query. */
  datatype Range = Range(from: Option<Time>, to: Option<Time>)

  predicate InRange(t: Time, r: Range) {
    (r.from.Some? ==> r.from.value <= t) && (r.to.Some? ==> t <= r.to.value)
  }

  // ---------------------------------------------------------------- User

  datatype Role = Founder | Manager | Employee

  function RoleName(r: Role): string {
    match r
    case Founder => "founder"
    case Manager => "manager"
    case Employee => "employee"
  }

  /** The enum validator of `role`: a string is accepted exactly when it names
      a role. No handler in this model parses a role; it documents the schema. */
  function ParseRole(s: string): (r: Option<Role>)
    ensures forall x :: r == Some(x) <==> RoleName(x) == s
  {
    if s == "founder" then Some(Founder)
    else if s == "manager" then Some(Manager)
    else if s == "employee" then Some(Employee)
    else None
  }

  /** The roles let through by `authorizeRoles('manager', 'founder')`. */
  predicate Supervises(r: Role) {
    r == Manager || r == Founder
  }

  /** A user record. `subordinates` is the list consulted when the user assigns work. */
  datatype User = User(
    name: string,
    email: string,
    role: Role,
    companyId: Option<CompanyId>,
    managerId: Option<UserId>,
    points: int,
    subordinates: seq<UserId>,
    pendingRequests: seq<UserId>)

  /** A user as the schema creates one: no company, no manager, no points, nobody below. */
  function NewUser(name: string, email: string, role: Role): (u: User)
    ensures u.name == name && u.email == email && u.role == role
    ensures u.companyId == None && u.managerId == None
    ensures u.points == 0 && u.subordinates == [] && u.pendingRequests == []
  {
    User(name, email, role, None, None, 0, [], [])
  }

  // ---------------------------------------------------------------- Task

  datatype TaskStatus = Pending | InProgress | Submitted | Completed | Rejected

  function StatusName(s: TaskStatus): string {
    match s
    case Pending => "pending"
    case InProgress => "in-progress"
    case Submitted => "submitted"
    case Completed => "completed"
    case Rejected => "rejected"
  }

  /** The enum validator of a task's `status`. No handler in this model parses
      a status (the listing filter compares names); it documents the schema. */
  function ParseStatus(s: string): (r: Option<TaskStatus>)
    ensures forall x :: r == Some(x) <==> StatusName(x) == s
  {
    if s == "pending" then Some(Pending)
    else if s == "in-progress" then Some(InProgress)
    else if s == "submitted" then Some(Submitted)
    else if s == "completed" then Some(Completed)
    else if s == "rejected" then Some(Rejected)
    else None
  }

  /** A task's `evaluationStatus`; `Unreviewed` is stored as "pending" and
      `Declined` as "rejected". */
  datatype EvaluationStatus = Unreviewed | Approved | Declined | NeedsRevision

  function EvaluationName(e: EvaluationStatus): string {
    match e
    case Unreviewed => "pending"
    case Approved => "approved"
    case Declined => "rejected"
    case NeedsRevision => "needs-revision"
  }

  /** The enum validator of `evaluationStatus`. */
  function ParseEvaluation(s: string): (r: Option<EvaluationStatus>)
    ensures forall x :: r == Some(x) <==> EvaluationName(x) == s
  {
    if s == "pending" then Some(Unreviewed)
    else if s == "approved" then Some(Approved)
    else if s == "rejected" then Some(Declined)
    else if s == "needs-revision" then Some(NeedsRevision)
    else None
  }

  /** A file as the upload middleware hands it over (storage itself is outside the model). */
  datatype Upload = Upload(path: string, filename: string, mimetype: string)

  datatype SubmissionFile = SubmissionFile(url: string, publicId: string, fileType: string, uploadedAt: Time)

  datatype Task = Task(
    title: string,
    description: string,
    points: int,
    assignedTo: UserId,
    assignedBy: UserId,
    deadline: Time,
    status: TaskStatus,
    submissionFiles: seq<SubmissionFile>,
    submissionNote: Option<string>,
    submittedAt: Option<Time>,
    evaluationStatus: EvaluationStatus,
    evaluationNote: Option<string>,
    evaluatedAt: Option<Time>,
    evaluatedBy: Option<UserId>,
    pointsAwarded: int,
    createdAt: Time)

  /** What the schema's validators demand of a task when it is saved: the
      required strings are non-empty and `points` is at least 0. */
  predicate ValidTask(t: Task) {
    t.title != "" && t.description != "" && t.points >= 0
  }

  /** A task built from the given fields, every other field at its schema default. */
  function NewTask(title: string, description: string, points: int, assignedTo: UserId,
                   assignedBy: UserId, deadline: Time, now: Time): (t: Task)
    ensures ValidTask(t) <==> title != "" && description != "" && points >= 0
    ensures t.status == Pending && t.evaluationStatus == Unreviewed && t.pointsAwarded == 0
    ensures t.submissionFiles == [] && t.submissionNote == None && t.submittedAt == None
    ensures t.evaluationNote == None && t.evaluatedAt == None && t.evaluatedBy == None
  {
    Task(title, description, points, assignedTo, assignedBy, deadline,
         Pending, [], None, None, Unreviewed, None, None, None, 0, now)
  }

  // ------------------------------------------------------ PerformanceLog

  /** One performance-log entry: a day's hours, points and completed tasks for one employee. */
  datatype Entry = Entry(
    employeeId: UserId,
    date: Day,
    hoursWorked: real,
    pointsEarned: int,
    tasksCompleted: int,
    taskIds: seq<TaskId>)

  /** An entry as the schema creates one. */
  function NewEntry(employeeId: UserId, date: Day): (e: Entry)
    ensures e.employeeId == employeeId && e.date == date
    ensures e.hoursWorked == 0.0 && e.pointsEarned == 0 && e.tasksCompleted == 0 && e.taskIds == []
    ensures ValidEntry(e)
  {
    Entry(employeeId, date, 0.0, 0, 0, [])
  }

  /** The schema's bounds: hours within 0..24, points never negative. */
  predicate ValidEntry(e: Entry) {
    0.0 <= e.hoursWorked <= 24.0 && e.pointsEarned >= 0
  }
}
