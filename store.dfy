/** The persisted state the task and performance handlers share, and the
    outcome a handler reports. */
module Store {
  import opened Records
  import opened Ledger

  /** How a handler ends. `Invalid` stands for a validation failure when a
      record is saved (or an upload limit), `ServerError` for a crash inside
      the handler; both reach the client as a server error. */
  datatype Outcome = Ok | NotFound | Forbidden | Invalid | ServerError

  /** The users, tasks and performance logs, with the next task id to hand out. */
  datatype State = State(
    users: map<UserId, User>,
    tasks: map<TaskId, Task>,
    logs: Logs,
    nextId: TaskId)

  /** A handler's outcome together with the state it leaves behind. */
  datatype Step = Step(outcome: Outcome, state: State)

  /** Every stored task has an id below `nextId`, passes the schema's
      validators and is assigned to a user who exists; the logs are valid. */
  predicate Valid(s: State) {
    && (forall id :: id in s.tasks ==>
          id < s.nextId && ValidTask(s.tasks[id]) && s.tasks[id].assignedTo in s.users)
    && ValidLogs(s.logs)
  }
}
