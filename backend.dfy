/** The database the handlers work on, as an object whose collections the
    handlers update in place: each handler fetches a record, changes its
    fields one by one and saves it back. Each method is tied to the
    transition that specifies it in Tasks or Performance. */
module Backend {
  import opened Records
  import opened Ledger
  import opened Store
  import Tasks
  import Performance

  class Database {
    var users: map<UserId, User>
    var tasks: map<TaskId, Task>
    var logs: Logs
    var nextId: TaskId

    function Snapshot(): State
      reads this
    {
      State(users, tasks, logs, nextId)
    }

    ghost predicate Valid()
      reads this
    {
      Store.Valid(Snapshot())
    }

    /** A database holding the given users and no tasks or logs yet. */
    constructor (initial: map<UserId, User>)
      ensures Valid()
      ensures Snapshot() == State(initial, map[], map[], 0)
    {
      users := initial;
      tasks := map[];
      logs := map[];
      nextId := 0;
    }

    /** `/create`; `id` is the new task's id when the outcome is `Ok`. */
    method CreateTask(caller: UserId, title: string, description: string, points: int,
                      assignedTo: UserId, deadline: Option<Time>, now: Time) returns (r: Outcome, id: TaskId)
      requires Valid() && caller in users
      modifies this
      ensures Valid()
      ensures Step(r, Snapshot()) == Tasks.Create(old(Snapshot()), caller, title, description, points, assignedTo, deadline, now)
      ensures r == Ok ==> id == old(nextId) && id in tasks
    {
      Tasks.CreatePreservesValid(Snapshot(), caller, title, description, points, assignedTo, deadline, now);
      id := 0;
      var me := users[caller];
      if !Supervises(me.role) {
        return Forbidden, id;
      }
      if assignedTo !in users {
        return NotFound, id;
      }
      if !Tasks.MayAssign(me, assignedTo) {
        return Forbidden, id;
      }
      if deadline.None? {
        return Invalid, id;
      }
      var task := NewTask(title, description, points, assignedTo, caller, deadline.value, now);
      if !ValidTask(task) {
        return Invalid, id;
      }
      id := nextId;
      tasks := tasks[id := task];
      nextId := nextId + 1;
      r := Ok;
    }

    /** `/:taskId/submit`. */
    method SubmitTask(caller: UserId, id: TaskId, files: seq<Upload>, note: Option<string>, now: Time)
      returns (r: Outcome)
      requires Valid()
      modifies this
      ensures Valid()
      ensures Step(r, Snapshot()) == Tasks.Submit(old(Snapshot()), caller, id, files, note, now)
    {
      Tasks.SubmitPreservesValid(Snapshot(), caller, id, files, note, now);
      if |files| > Tasks.MaxUploads {
        return Invalid;
      }
      if id !in tasks {
        return NotFound;
      }
      var task := tasks[id];
      if task.assignedTo != caller {
        return Forbidden;
      }
      task := task.(status := Submitted);
      task := task.(submissionFiles := Tasks.Stamped(files, now));
      task := task.(submissionNote := note);
      task := task.(submittedAt := Some(now));
      tasks := tasks[id := task];
      r := Ok;
    }

    /** `/:taskId/evaluate`: the employee's balance is saved, then the
        day's log entry, then the task. */
    method EvaluateTask(caller: UserId, id: TaskId, decision: string, note: Option<string>,
                        supplied: Option<int>, today: Day, now: Time) returns (r: Outcome)
      requires Valid() && caller in users
      modifies this
      ensures Valid()
      ensures Step(r, Snapshot()) == Tasks.Evaluate(old(Snapshot()), caller, id, decision, note, supplied, today, now)
    {
      Tasks.EvaluatePreservesValid(Snapshot(), caller, id, decision, note, supplied, today, now);
      var me := users[caller];
      if !Supervises(me.role) {
        return Forbidden;
      }
      if id !in tasks {
        return NotFound;
      }
      var task := tasks[id];
      if !Tasks.MayEvaluate(caller, me, task) {
        return Forbidden;
      }
      var parsed := ParseEvaluation(decision);
      if parsed.None? {
        return Invalid;
      }
      task := task.(evaluationStatus := parsed.value);
      task := task.(evaluationNote := note);
      task := task.(evaluatedAt := Some(now));
      task := task.(evaluatedBy := Some(caller));
      assert task == Tasks.Reviewed(tasks[id], caller, parsed.value, note, now);
      if decision == "approved" {
        r := Approve(id, task, supplied, today);
      } else {
        if decision == "rejected" {
          task := task.(status := Rejected);
        }
        tasks := tasks[id := task];
        r := Ok;
      }
    }

    /** The approval half of `/:taskId/evaluate`, given the reviewed task:
        the task is completed with its award, the assignee's balance is
        saved, then the day's entry, and only then the task. */
    method Approve(id: TaskId, task: Task, supplied: Option<int>, today: Day) returns (r: Outcome)
      requires Valid() && id in tasks && task.assignedTo == tasks[id].assignedTo
      modifies this
      ensures var a, award := task.assignedTo, Tasks.Award(supplied, task.points);
        var users' := old(users)[a := old(users)[a].(points := old(users)[a].points + award)];
        var logs' := Credited(old(logs), (a, today), award, id);
        && nextId == old(nextId) && users == users'
        && (if ValidEntry(logs'[(a, today)])
            then r == Ok && logs == logs' && tasks == old(tasks)[id := task.(status := Completed, pointsAwarded := award)]
            else r == Invalid && logs == old(logs) && tasks == old(tasks))
    {
      var a := task.assignedTo;
      var award := Tasks.Award(supplied, task.points);
      var employee := users[a];
      employee := employee.(points := employee.points + award);
      users := users[a := employee];
      var key := (a, today);
      var entry := Located(logs, key);
      entry := entry.(pointsEarned := entry.pointsEarned + award);
      entry := entry.(tasksCompleted := entry.tasksCompleted + 1);
      entry := entry.(taskIds := entry.taskIds + [id]);
      if !ValidEntry(entry) {
        return Invalid;
      }
      logs := logs[key := entry];
      var done := task.(status := Completed);
      done := done.(pointsAwarded := award);
      tasks := tasks[id := done];
      r := Ok;
    }

    /** `/log-hours`. */
    method LogHours(caller: UserId, day: Day, hours: real) returns (r: Outcome)
      requires Valid()
      modifies this
      ensures Valid()
      ensures Step(r, Snapshot()) == Performance.LogHours(old(Snapshot()), caller, day, hours)
    {
      Performance.LogHoursPreservesValid(Snapshot(), caller, day, hours);
      var key := (caller, day);
      var entry := Located(logs, key);
      entry := entry.(hoursWorked := hours);
      if !ValidEntry(entry) {
        return Invalid;
      }
      logs := logs[key := entry];
      r := Ok;
    }
  }

  /** Two approvals of one task, one after the other, credit the assignee twice. */
  method ApproveTwice(db: Database, caller: UserId, id: TaskId, today: Day, now: Time)
    requires db.Valid() && caller in db.users && db.users[caller].role == Founder
    requires id in db.tasks
    modifies db
    ensures db.Valid()
    ensures var a := old(db.tasks[id].assignedTo);
      a in old(db.users) && a in db.users && db.users[a].points == old(db.users[a].points) + 2 * old(db.tasks[id].points)
  {
    var a := db.tasks[id].assignedTo;
    assert a in db.users;
    var award := db.tasks[id].points;
    var first := db.EvaluateTask(caller, id, "approved", None, None, today, now);
    assert first == Ok;
    assert db.tasks[id].points == award && db.tasks[id].assignedTo == a;
    var second := db.EvaluateTask(caller, id, "approved", None, None, today, now);
    assert second == Ok;
  }
}
