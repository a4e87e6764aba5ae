# Task and performance core of a company task tracker

This project models the backend of a company task tracker. Supervisors
(managers and the founder) create point-valued tasks for the people below
them. Employees submit them with files and a note. A supervisor evaluates a
submission. An approval completes the task and credits the awarded points
twice: to the employee's running balance, and to that day's performance-log
entry. Employees also log the hours they worked each day. The performance
endpoints return one employee's logs with totals and averages, or a rollup
of every subordinate's logs.

The model has six modules:

- `Records`: the user, task and performance-log records, with the defaults
  and validators of their schemas.
- `Ledger`: the performance-log collection, keyed by its unique
  `(employeeId, date)` index. It has two upserts: hour logging (find or
  create, then overwrite the hours) and an approval's credit (find or
  create, then add to the points, count and task ids).
- `Store`: the shared state (users, tasks, logs, the next task id), a
  handler's `Outcome`, and the invariant `Valid` that every handler keeps.
- `Tasks`: `/create`, `/my-tasks`, `/:taskId/submit` and
  `/:taskId/evaluate`, each as a transition from a state to an outcome and
  a new state.
- `Performance`: `/log-hours` as a transition, `/data` as a query with its
  statistics, and `/team` as a method with the two loops of the handler.
- `Backend`: a `Database` class whose fields are the three collections and the next task id.
  Its methods make the handlers' in-place updates, field by field, and
  each one is proved equal to the matching transition.

In four places the code is less strict than a reader might expect. In
each case the model follows the code:

- Submitting and evaluating do not check the task's current status. A
  completed task can be resubmitted. It can also be approved a second
  time, which credits the points again.
- `/data` lets any manager or founder read the logs of any `userId`. The
  handler does not check that the target is one of their subordinates.
- `needs-revision` and `pending` evaluations leave `status` as it was.
  Only `approved` and `rejected` change it.
- An approval whose award takes the day's log entry below zero raises
  `Invalid` only after the employee's new balance has been saved. The
  task and the logs keep their old values.

## Model

| member | source | states |
|---|---|---|
| Records.NewUser | backend/src/models/User.js:5-55 | a new user keeps the given name, email and role, has no company and no manager, 0 points, and no subordinates or pending requests |
| Records.NewTask | backend/src/models/Task.js:31-58 | a new task passes the validators exactly when title and description are non-empty and points are at least 0; it starts pending, unreviewed, with no submission, no evaluation and 0 points awarded |
| Records.NewEntry | backend/src/models/PerformanceLog.js:13-31 | a new entry belongs to the given employee and day, has 0 hours, 0 points, 0 tasks and no task ids, and passes the validators |
| Records.ValidTask | backend/src/models/Task.js:4-16 | what saving a task demands: non-empty title and description, and points at least 0 |
| Records.ValidEntry | backend/src/models/PerformanceLog.js:13-23 | what saving an entry demands: hours within 0..24 and points at least 0 |
| Records.ParseRole | backend/src/models/User.js:20-24 | a string is accepted as a role exactly when it is the name of that role (documents the enum validator; no handler here parses a role) |
| Records.ParseStatus | backend/src/models/Task.js:31-35 | a string is accepted as a task status exactly when it names one of the five statuses (documents the enum validator; no handler here parses a status) |
| Records.ParseEvaluation | backend/src/models/Task.js:44-48 | a string is accepted as an evaluation status exactly when it names one of the four values ("pending", "approved", "rejected", "needs-revision") |
| Ledger.Located | backend/src/routes/performance.js:15-25 | the find-or-create step: the stored entry under the key if there is one, else a fresh entry for that employee and day; on valid logs the result always belongs to the key and passes the validators |
| Ledger.WithHours | backend/src/routes/performance.js:15-28 | the (employee, day) entry exists afterwards with the given hours; its points, task count and task ids are those of the old entry or the defaults; every other entry is unchanged |
| Ledger.Credited | backend/src/routes/tasks.js:169-184 | the (employee, day) entry exists afterwards with points plus the award, one more completed task and the task id appended; its hours are kept; every other entry is unchanged |
| Ledger.WithHoursValid | backend/src/models/PerformanceLog.js:13-18 | logging hours within 0..24 keeps every entry within the schema's bounds |
| Ledger.CreditedValid | backend/src/models/PerformanceLog.js:19-23 | a credit keeps the collection valid if and only if the day's points stay at least 0 |
| Ledger.HoursLastWriteWins | backend/src/routes/performance.js:27 | hours are overwritten, not added: two loggings for one day equal the last one alone |
| Ledger.HoursAndCreditCommute | backend/src/routes/tasks.js:181-183 | logging hours and crediting an approval change disjoint fields, so they commute |
| Ledger.CreditsAccumulate | backend/src/routes/tasks.js:181-183 | after N credits to a day, its points have risen by their sum, its count by N and its ids by the N ids in order; hours and other entries are unchanged |
| Tasks.Create | backend/src/routes/tasks.js:25-58 | employees are refused; an unknown assignee gives not-found; an assignee that is not a subordinate of a non-founder is refused; it succeeds exactly when the validators pass (non-empty title and description, points at least 0, a deadline), and a call that gets past the guards but fails them gives `Invalid` (the caught save error); a failure changes nothing; on success the task is stored under the next id with the given fields and every schema default |
| Tasks.CreatePreservesValid | backend/src/routes/tasks.js:40-49 | creation keeps the store invariant: ids below the next id, valid tasks, assignees that exist, valid logs |
| Tasks.NewUserAssignsNobody | backend/src/routes/tasks.js:36-38 | a manager whose subordinates are still the schema default (empty) cannot create any task |
| Tasks.MayAssign | backend/src/routes/tasks.js:36 | the creator may assign to the assignee when the assignee is among the creator's subordinates or the creator is the founder |
| Tasks.MyTasks | backend/src/routes/tasks.js:65-82 | a task is listed exactly when it is the employee's own (or, for a supervisor, one they assigned), has the requested status if one is given, and has its deadline inside the inclusive bounds |
| Tasks.Submit | backend/src/routes/tasks.js:96-124 | more than five files are refused before the lookup; an unknown task gives not-found; only the assignee may submit; it succeeds exactly then, and sets only the status to submitted, the time-stamped files, the note and the submission time |
| Tasks.SubmitPreservesValid | backend/src/routes/tasks.js:119-124 | submission keeps the store invariant |
| Tasks.FinishedTaskCanBeResubmitted | backend/src/routes/tasks.js:101-122 | a completed or rejected task goes back to submitted when its assignee submits it again |
| Tasks.MayEvaluate | backend/src/routes/tasks.js:147 | the caller may evaluate a task they assigned; the founder may evaluate any task |
| Tasks.Award | backend/src/routes/tasks.js:158 | the supplied award unless it is absent or 0, in which case the task's points; so the award is 0 only for a task worth 0 |
| Tasks.Evaluate | backend/src/routes/tasks.js:136-198 | refused exactly for employees, unknown tasks and non-founders who did not assign the task, with nothing changed; an authorized call with an unknown decision gives `Invalid` (the enum validator refuses the save) and changes nothing; it succeeds exactly for an authorized call with a known decision on a task whose assignee still exists, unless it is an approval whose credit the day's entry refuses; when the assignee no longer exists, an approval is a server error and any other decision is `Invalid` (the task's required assignee reference fails on save), both with nothing changed; on success only the evaluation fields, status and award change; an approval completes the task, settles the award and credits the balance and the day's entry; a rejection sets rejected; other decisions keep the status; a refused entry, and only that, gives `Invalid` with tasks and logs unchanged and the balance already raised |
| Tasks.EvaluatePreservesValid | backend/src/routes/tasks.js:156-189 | evaluation keeps the store invariant, including the partial failure |
| Tasks.NegativeAwardIsPartlyApplied | backend/src/routes/tasks.js:158-184 | a negative award that takes the day's points below 0 fails after the balance has already dropped; the task and logs are unchanged |
| Tasks.ReapprovalCreditsAgain | backend/src/routes/tasks.js:151-184 | with an absent or non-negative override, approving an approved task again succeeds and credits the balance, the day's points and the task count a second time |
| Tasks.RejectionAfterApprovalKeepsCredit | backend/src/routes/tasks.js:185-187 | rejecting an approved task sets rejected but keeps its award, the balance and the logs |
| Tasks.CreateSubmitApprove | backend/src/routes/tasks.js:40-184 | create a 10-point task for a subordinate, submit it, approve it without an override: completed, 10 awarded, balance and the day's entry up by 10 points and one task, with the task id appended |
| Performance.LogHours | backend/src/routes/performance.js:8-37 | on valid logs it succeeds exactly when the hours are within 0..24; a failure changes nothing; a success is the hour upsert on the caller's entry for the day |
| Performance.LogHoursPreservesValid | backend/src/routes/performance.js:27-28 | logging hours keeps the store invariant |
| Performance.LoggingTwiceKeepsLast | backend/src/routes/performance.js:15-28 | logging 5 and then 7 hours for one day leaves 7 hours and the day's points untouched |
| Performance.Sorted | backend/src/routes/performance.js:61-62 | the keys of a set in ascending order (by date, then by employee), each exactly once |
| Performance.AscendingIsSorted | backend/src/routes/performance.js:61-62 | an ascending sequence is the sorted order of its own elements, so the order is unique |
| Performance.Target | backend/src/routes/performance.js:44-49 | a supervisor who names a user reads that user; everyone else reads themselves |
| Performance.DataLogs | backend/src/routes/performance.js:51-63 | the entries `/data` fetches: those stored under the user's keys dated within the bounds, in the sorted order of their keys |
| Performance.DataLogsSpec | backend/src/routes/performance.js:51-63 | the entries returned for a user are exactly the stored entries of that user dated within the inclusive bounds, each once, in strictly ascending date order |
| Performance.EmployeeSeesOwnData | backend/src/routes/performance.js:44-49 | an employee who names another user still gets only their own entries |
| Performance.Summarize | backend/src/routes/performance.js:66-77 | the totals are the sums over the entries; both averages are 0 for no entries, and otherwise, multiplied by the count, give the totals |
| Performance.Data | backend/src/routes/performance.js:40-86 | every returned entry is the target's, dated within the bounds and stored; the dates strictly ascend; every stored entry of the target within the bounds is returned; the stats are those of `Summarize`, with totals that are the sums over the returned entries |
| Performance.EmptyRangeZeroStats | backend/src/routes/performance.js:66-77 | with no entry in range, the reply has no logs, every total and both averages are 0 |
| Performance.TeamLogs | backend/src/routes/performance.js:98-110 | the entries the `/team` query fetches: every entry of a listed subordinate dated within the bounds, in the sorted order of their keys |
| Performance.DanglingFound | backend/src/routes/performance.js:108-127 | some fetched entry belongs to an employee with no user record exactly when some stored entry in range belongs to a listed subordinate with no user record |
| Performance.TeamShareIsData | backend/src/routes/performance.js:98-110 | a subordinate's share of the team query is exactly what `/data` returns for that subordinate |
| Performance.RowOfStep | backend/src/routes/performance.js:127-132 | adding one entry to a row adds its hours, points and task count to the totals and appends it to the logs |
| Performance.StartRows | backend/src/routes/performance.js:115-123 | one row per subordinate who exists, with zero totals and no logs |
| Performance.AddEntries | backend/src/routes/performance.js:125-133 | after the loop, each row is its employee's entries from the query, in order, with their totals; entries of anyone without a row are skipped |
| Performance.Team | backend/src/routes/performance.js:89-139 | employees are refused with no rows; an entry in range that belongs to a listed subordinate with no user record makes the request fail with no rows; otherwise a supervisor gets one row per existing subordinate, whose logs are what `/data` returns for that subordinate and whose totals are the sums over those logs |
| Performance.QuietSubordinateRow | backend/src/routes/performance.js:115-123 | a row whose logs and totals are as in `Team`'s contract, for a subordinate with nothing in range, has no logs and zero totals (that such a row exists is `Team`'s own contract) |
| Backend.Database.CreateTask | backend/src/routes/tasks.js:40-49 | the in-place creation yields the outcome and the state of `Tasks.Create`, keeps the invariant, and returns the new task's id |
| Backend.Database.SubmitTask | backend/src/routes/tasks.js:119-124 | the field-by-field submission yields the outcome and the state of `Tasks.Submit` and keeps the invariant |
| Backend.Database.EvaluateTask | backend/src/routes/tasks.js:151-189 | the field-by-field evaluation yields the outcome and the state of `Tasks.Evaluate`, the partial failure included, and keeps the invariant |
| Backend.Database.Approve | backend/src/routes/tasks.js:156-184 | the approval saves the raised balance first; the entry and the completed task are saved only when the entry passes its validator |
| Backend.Database.LogHours | backend/src/routes/performance.js:15-28 | the in-place hour upsert yields the outcome and the state of `Performance.LogHours` and keeps the invariant |
| Backend.ApproveTwice | backend/src/routes/tasks.js:156-163 | two approvals in a row by the founder raise the assignee's balance by twice the task's points |

## Left out

- File storage: uploading to the file host and the allowed formats are not modelled. An upload arrives as the path, name and type the upload middleware reports. Only its limit of five files is kept.
- Wall-clock time: `new Date()` and midnight truncation (`setHours(0,0,0,0)`) are parameters (`now`, `today`, `day`). Date strings that do not parse are not modelled.
- Identifiers are natural numbers. Ids that are not valid ObjectIds, and the cast errors they raise, are not modelled.
- `populate` and `select` projections: populating the id of a user that no longer exists yields null. The model keeps what follows from that: the crash of `/team` (performance.js:109, 126) as `ServerError` in Performance.Team, and in Tasks.Evaluate (tasks.js:141) the crash of an approval (tasks.js:161-162) as `ServerError` and the refused save of any other decision (tasks.js:189) as `Invalid`. Otherwise projections only change what a reply shows and are not modelled.
- Tasks.MyTasks: returns the set of matching ids, without the `-createdAt` ordering of the reply.
- HTTP status codes are represented by `Outcome`. Validation failures and handler crashes both reach the client as code 500 and are kept apart here as `Invalid` and `ServerError`.
- Concurrency: two handlers running at once can interleave their read-modify-write steps and lose an update (two approvals racing on one balance, say). Each handler is modelled as atomic.
- Hours and averages are exact reals, not IEEE doubles, so rounding is not modelled.
- Task points, awards, balances and log points are integers. The schema types them as `Number` (Task.js:12-16, 55-58), so a fractional value would pass `min: 0`; fractional points are not modelled.
- Authentication (`routes/auth.js`, the token middleware), `Company.js`, `server.js` and the password hashing hook are not part of this model. The authenticated caller is a user id that exists in the store. `Supervises` stands in for `authorizeRoles('manager', 'founder')`.
- `routes/performance.js` uses `User` (line 94) and `authorizeRoles` (line 89) without importing them (line 3). `authorizeRoles('manager', 'founder')` is evaluated when the module loads, so loading always fails with a reference error, and the `require` of this module in `server.js` (line 37) stops the whole server from starting. Performance.LogHours, Performance.Data and Performance.Team model the evident intent: the role check, then the subordinates query.
- Performance.Team: returns a map from subordinate id to row, not the array `Object.values` builds, so the order of the rows is not modelled.
- Performance.Sorted: the store sorts by date alone. Entries of different employees on the same date are put in employee-id order here. Entries of one employee never share a date, because of the unique index.
- Tasks.Award: `pointsAwarded || task.points` is modelled for an integer or an absent value. A non-numeric string or NaN sent by a client is not modelled.
- Users.name trimming, email lowercasing and email uniqueness are not modelled. No handler in this core creates or renames users.
- The `createdAt` and `updatedAt` timestamps: only a task's `createdAt` is kept. The `updatedAt` fields and the log entries' timestamps are not modelled.
- Records.ValidTask: checks non-empty strings and non-negative points when a task is saved. Missing numbers or ids are excluded by the types, except `deadline`, which is an `Option` and is checked.
