/** The task handlers: creating a task, listing one's tasks, submitting a
    task and evaluating it. Evaluation is the step that reaches beyond the
    task: an approval also raises the assignee's point balance and credits
    that day's performance-log entry. */
module Tasks {
  import opened Records
  import opened Ledger
  import opened Store

  // ---------------------------------------------------------------- create

  /** Who may assign to whom: a subordinate of the creator, or anyone when the creator is the founder. */
  predicate MayAssign(creator: User, assignee: UserId) {
    assignee in creator.subordinates || creator.role == Founder
  }

  /** `/create`: the caller must hold a supervising role, the assignee must
      exist and be assignable, and the new task must pass the validators.
      The new task takes the next id. */
  function Create(s: State, caller: UserId, title: string, description: string, points: int,
                  assignedTo: UserId, deadline: Option<Time>, now: Time): (r: Step)
    requires caller in s.users
    ensures !Supervises(s.users[caller].role) ==> r == Step(Forbidden, s)
    ensures Supervises(s.users[caller].role) && assignedTo !in s.users ==> r == Step(NotFound, s)
    ensures Supervises(s.users[caller].role) && assignedTo in s.users && !MayAssign(s.users[caller], assignedTo) ==>
              r == Step(Forbidden, s)
    ensures r.outcome == Ok <==>
              && Supervises(s.users[caller].role)
              && assignedTo in s.users
              && MayAssign(s.users[caller], assignedTo)
              && title != "" && description != "" && points >= 0 && deadline.Some?
    ensures Supervises(s.users[caller].role) && assignedTo in s.users && MayAssign(s.users[caller], assignedTo)
            && !(title != "" && description != "" && points >= 0 && deadline.Some?) ==>
              r == Step(Invalid, s)
    ensures r.outcome != Ok ==> r.state == s
    ensures r.outcome == Ok ==>
              && r.state.users == s.users && r.state.logs == s.logs
              && r.state.nextId == s.nextId + 1
              && r.state.tasks.Keys == s.tasks.Keys + {s.nextId}
              && (forall id :: id in s.tasks && id != s.nextId ==> r.state.tasks[id] == s.tasks[id])
    ensures r.outcome == Ok ==>
              var t := r.state.tasks[s.nextId];
              && t.title == title && t.description == description && t.points == points
              && t.assignedTo == assignedTo && t.assignedBy == caller && Some(t.deadline) == deadline
              && t.status == Pending && t.evaluationStatus == Unreviewed && t.pointsAwarded == 0
              && t.submissionFiles == [] && t.submissionNote == None && t.submittedAt == None
              && t.evaluationNote == None && t.evaluatedAt == None && t.evaluatedBy == None
              && t.createdAt == now
  {
    var me := s.users[caller];
    if !Supervises(me.role) then Step(Forbidden, s)
    else if assignedTo !in s.users then Step(NotFound, s)
    else if !MayAssign(me, assignedTo) then Step(Forbidden, s)
    else if deadline.None? then Step(Invalid, s)
    else
      var t := NewTask(title, description, points, assignedTo, caller, deadline.value, now);
      if !ValidTask(t) then Step(Invalid, s)
      else Step(Ok, s.(tasks := s.tasks[s.nextId := t], nextId := s.nextId + 1))
  }

  lemma CreatePreservesValid(s: State, caller: UserId, title: string, description: string, points: int,
                             assignedTo: UserId, deadline: Option<Time>, now: Time)
    requires Valid(s) && caller in s.users
    ensures Valid(Create(s, caller, title, description, points, assignedTo, deadline, now).state)
  {
  }

  /** A user whose `subordinates` still has its default (empty) value can
      assign nothing unless they are the founder. */
  lemma NewUserAssignsNobody(s: State, caller: UserId, name: string, email: string, role: Role,
                             title: string, description: string, points: int,
                             assignedTo: UserId, deadline: Option<Time>, now: Time)
    requires caller in s.users && s.users[caller] == NewUser(name, email, role) && role != Founder
    ensures Create(s, caller, title, description, points, assignedTo, deadline, now).outcome != Ok
  {
  }

  // ------------------------------------------------------------------ list

  /** The filter a `/my-tasks` request builds before it queries the store. */
  datatype TaskQuery = TaskQuery(
    assignedTo: Option<UserId>,
    assignedBy: Option<UserId>,
    status: Option<string>,
    deadline: Range)

  /** Employees are scoped to the tasks assigned to them, everyone else to
      the tasks they assigned; a non-empty `status` narrows the query, and
      so do the deadline bounds. */
  function MyTasksQuery(caller: UserId, role: Role, status: Option<string>, deadline: Range): TaskQuery {
    var scoped :=
      if role == Employee then TaskQuery(Some(caller), None, None, Range(None, None))
      else TaskQuery(None, Some(caller), None, Range(None, None));
    var filtered := if status.Some? && status.value != "" then scoped.(status := status) else scoped;
    filtered.(deadline := deadline)
  }

  /** How the store matches a task against a query. */
  predicate Matches(q: TaskQuery, t: Task) {
    && (q.assignedTo.Some? ==> t.assignedTo == q.assignedTo.value)
    && (q.assignedBy.Some? ==> t.assignedBy == q.assignedBy.value)
    && (q.status.Some? ==> StatusName(t.status) == q.status.value)
    && InRange(t.deadline, q.deadline)
  }

  /** `/my-tasks`: the ids of the caller's tasks under the given filters. */
  function MyTasks(tasks: map<TaskId, Task>, caller: UserId, role: Role,
                   status: Option<string>, deadline: Range): (r: set<TaskId>)
    ensures forall id :: id in r <==>
      && id in tasks
      && (if role == Employee then tasks[id].assignedTo == caller else tasks[id].assignedBy == caller)
      && (status.Some? && status.value != "" ==> StatusName(tasks[id].status) == status.value)
      && InRange(tasks[id].deadline, deadline)
  {
    var q := MyTasksQuery(caller, role, status, deadline);
    set id | id in tasks && Matches(q, tasks[id])
  }

  // ---------------------------------------------------------------- submit

  /** The most files one submission may carry (`upload.array('files', 5)`). */
  const MaxUploads := 5

  /** The submission records made from the uploaded files, all stamped with the upload time. */
  function Stamped(files: seq<Upload>, now: Time): seq<SubmissionFile> {
    seq(|files|, i requires 0 <= i < |files| =>
      SubmissionFile(files[i].path, files[i].filename, files[i].mimetype, now))
  }

  /** `/:taskId/submit`: only the assignee may submit. The task's current
      status is not consulted. */
  function Submit(s: State, caller: UserId, id: TaskId, files: seq<Upload>,
                  note: Option<string>, now: Time): (r: Step)
    ensures |files| > MaxUploads ==> r == Step(Invalid, s)
    ensures |files| <= MaxUploads && id !in s.tasks ==> r == Step(NotFound, s)
    ensures |files| <= MaxUploads && id in s.tasks && s.tasks[id].assignedTo != caller ==> r == Step(Forbidden, s)
    ensures r.outcome == Ok <==> |files| <= MaxUploads && id in s.tasks && s.tasks[id].assignedTo == caller
    ensures r.outcome == Ok ==>
      r.state == s.(tasks := s.tasks[id := s.tasks[id].(
        status := Submitted,
        submissionFiles := Stamped(files, now),
        submissionNote := note,
        submittedAt := Some(now))])
  {
    if |files| > MaxUploads then Step(Invalid, s)
    else if id !in s.tasks then Step(NotFound, s)
    else if s.tasks[id].assignedTo != caller then Step(Forbidden, s)
    else
      var t := s.tasks[id].(status := Submitted, submissionFiles := Stamped(files, now),
                            submissionNote := note, submittedAt := Some(now));
      Step(Ok, s.(tasks := s.tasks[id := t]))
  }

  lemma SubmitPreservesValid(s: State, caller: UserId, id: TaskId, files: seq<Upload>,
                             note: Option<string>, now: Time)
    requires Valid(s)
    ensures Valid(Submit(s, caller, id, files, note, now).state)
  {
  }

  /** Submission does not look at the status: a completed (or rejected)
      task goes back to `submitted` when its assignee submits it again. */
  lemma FinishedTaskCanBeResubmitted(s: State, id: TaskId, files: seq<Upload>, note: Option<string>, now: Time)
    requires id in s.tasks && s.tasks[id].status in {Completed, Rejected} && |files| <= MaxUploads
    ensures var r := Submit(s, s.tasks[id].assignedTo, id, files, note, now);
      r.outcome == Ok && r.state.tasks[id].status == Submitted
  {
  }

  // -------------------------------------------------------------- evaluate

  /** Who may evaluate a task: the user who assigned it, or the founder. */
  predicate MayEvaluate(caller: UserId, evaluator: User, t: Task) {
    t.assignedBy == caller || evaluator.role == Founder
  }

  /** `pointsAwarded || task.points`: the supplied award unless it is absent or zero. */
  function Award(supplied: Option<int>, points: int): (r: int)
    ensures supplied.None? || supplied == Some(0) ==> r == points
    ensures supplied.Some? && supplied.value != 0 ==> r == supplied.value
    ensures r == 0 ==> points == 0
  {
    if supplied.Some? && supplied.value != 0 then supplied.value else points
  }

  /** The evaluation fields every evaluation writes. */
  function Reviewed(t: Task, caller: UserId, e: EvaluationStatus, note: Option<string>, now: Time): Task {
    t.(evaluationStatus := e, evaluationNote := note, evaluatedAt := Some(now), evaluatedBy := Some(caller))
  }

  /** `/:taskId/evaluate`. The task's current status is not consulted. On
      approval the employee's balance is saved first, then the day's log
      entry, then the task; a log entry that fails validation stops the
      handler after the balance has already been saved. */
  function Evaluate(s: State, caller: UserId, id: TaskId, decision: string, note: Option<string>,
                    supplied: Option<int>, today: Day, now: Time): (r: Step)
    requires caller in s.users
    // refusals leave everything as it was
    ensures !Supervises(s.users[caller].role) ==> r == Step(Forbidden, s)
    ensures Supervises(s.users[caller].role) && id !in s.tasks ==> r == Step(NotFound, s)
    ensures Supervises(s.users[caller].role) && id in s.tasks && !MayEvaluate(caller, s.users[caller], s.tasks[id]) ==>
              r == Step(Forbidden, s)
    ensures r.outcome in {Forbidden, NotFound} <==>
              !(Supervises(s.users[caller].role) && id in s.tasks && MayEvaluate(caller, s.users[caller], s.tasks[id]))
    ensures ParseEvaluation(decision).None? ==> r.outcome != Ok && r.state == s
    ensures Supervises(s.users[caller].role) && id in s.tasks && MayEvaluate(caller, s.users[caller], s.tasks[id])
            && ParseEvaluation(decision).None? ==>
              r == Step(Invalid, s)
    // an evaluation that goes through records the decision, the note, the
    // time and the evaluator, and changes no other task and no other field
    // of this one besides `status` and `pointsAwarded`
    ensures r.outcome == Ok ==>
              && id in s.tasks && r.state.nextId == s.nextId
              && r.state.tasks.Keys == s.tasks.Keys
              && (forall j :: j in s.tasks && j != id ==> r.state.tasks[j] == s.tasks[j])
              && ParseEvaluation(decision) == Some(r.state.tasks[id].evaluationStatus)
              && r.state.tasks[id] == Reviewed(s.tasks[id], caller, r.state.tasks[id].evaluationStatus, note, now).(
                   status := r.state.tasks[id].status, pointsAwarded := r.state.tasks[id].pointsAwarded)
    // when it goes through: an authorized evaluation with a known decision
    // of a task whose assignee still exists, unless it is an approval whose
    // credit the day's entry refuses
    ensures r.outcome == Ok <==>
              && Supervises(s.users[caller].role) && id in s.tasks && MayEvaluate(caller, s.users[caller], s.tasks[id])
              && ParseEvaluation(decision).Some?
              && s.tasks[id].assignedTo in s.users
              && (decision == "approved" ==>
                    var a := s.tasks[id].assignedTo;
                    ValidEntry(Credited(s.logs, (a, today), Award(supplied, s.tasks[id].points), id)[(a, today)]))
    // any other decision on a task whose assignee is gone: the populated
    // assignee is null and saving the task fails its required reference
    ensures Supervises(s.users[caller].role) && id in s.tasks && MayEvaluate(caller, s.users[caller], s.tasks[id])
            && ParseEvaluation(decision).Some? && decision != "approved" && s.tasks[id].assignedTo !in s.users ==>
              r == Step(Invalid, s)
    // an authorized approval that fails: a vanished assignee crashes the
    // handler; a refused entry leaves the balance already raised
    ensures Supervises(s.users[caller].role) && id in s.tasks && MayEvaluate(caller, s.users[caller], s.tasks[id])
            && decision == "approved" ==>
              var a, award := s.tasks[id].assignedTo, Award(supplied, s.tasks[id].points);
              && (a !in s.users ==> r == Step(ServerError, s))
              && (a in s.users && !ValidEntry(Credited(s.logs, (a, today), award, id)[(a, today)]) ==>
                    r == Step(Invalid, s.(users := s.users[a := s.users[a].(points := s.users[a].points + award)])))
    // approval: completed, the award settled, the balance and the day's entry credited
    ensures r.outcome == Ok && decision == "approved" ==>
              var a, award := s.tasks[id].assignedTo, r.state.tasks[id].pointsAwarded;
              && r.state.tasks[id].status == Completed
              && award == Award(supplied, s.tasks[id].points)
              && a in s.users
              && r.state.users == s.users[a := s.users[a].(points := s.users[a].points + award)]
              && r.state.logs == Credited(s.logs, (a, today), award, id)
    // rejection flips the status; other decisions leave it; neither touches points or logs
    ensures r.outcome == Ok && decision != "approved" ==>
              && r.state.users == s.users && r.state.logs == s.logs
              && r.state.tasks[id].pointsAwarded == s.tasks[id].pointsAwarded
              && r.state.tasks[id].status == (if decision == "rejected" then Rejected else s.tasks[id].status)
    // the one partial failure: the balance is saved, the entry is refused
    ensures r.outcome == Invalid ==> r.state.tasks == s.tasks && r.state.logs == s.logs && r.state.nextId == s.nextId
    ensures r.outcome == Invalid && r.state != s ==>
              var a, award := s.tasks[id].assignedTo, Award(supplied, s.tasks[id].points);
              && decision == "approved" && a in s.users
              && !ValidEntry(Credited(s.logs, (a, today), award, id)[(a, today)])
              && r.state.users == s.users[a := s.users[a].(points := s.users[a].points + award)]
  {
    var me := s.users[caller];
    if !Supervises(me.role) then Step(Forbidden, s)
    else if id !in s.tasks then Step(NotFound, s)
    else if !MayEvaluate(caller, me, s.tasks[id]) then Step(Forbidden, s)
    else if ParseEvaluation(decision).None? then Step(Invalid, s)
    else
      var t := Reviewed(s.tasks[id], caller, ParseEvaluation(decision).value, note, now);
      if decision == "approved" then
        var a, award := t.assignedTo, Award(supplied, t.points);
        if a !in s.users then Step(ServerError, s)
        else
          var users := s.users[a := s.users[a].(points := s.users[a].points + award)];
          var logs := Credited(s.logs, (a, today), award, id);
          if !ValidEntry(logs[(a, today)]) then Step(Invalid, s.(users := users))
          else
            Step(Ok, s.(users := users, logs := logs,
                        tasks := s.tasks[id := t.(status := Completed, pointsAwarded := award)]))
      else if t.assignedTo !in s.users then Step(Invalid, s)
      else if decision == "rejected" then
        Step(Ok, s.(tasks := s.tasks[id := t.(status := Rejected)]))
      else
        Step(Ok, s.(tasks := s.tasks[id := t]))
  }

  lemma EvaluatePreservesValid(s: State, caller: UserId, id: TaskId, decision: string, note: Option<string>,
                               supplied: Option<int>, today: Day, now: Time)
    requires Valid(s) && caller in s.users
    ensures Valid(Evaluate(s, caller, id, decision, note, supplied, today, now).state)
  {
    var r := Evaluate(s, caller, id, decision, note, supplied, today, now);
    if r.outcome == Ok && decision == "approved" {
      var a := s.tasks[id].assignedTo;
      CreditedValid(s.logs, (a, today), r.state.tasks[id].pointsAwarded, id);
    }
  }

  /** In a valid state, a negative award that would take the day's points
      below zero is refused by the log entry's validator only after the
      employee's balance has been lowered: the task stays as it was, the
      balance does not. */
  lemma NegativeAwardIsPartlyApplied(s: State, caller: UserId, id: TaskId, note: Option<string>,
                                     penalty: int, today: Day, now: Time)
    requires Valid(s) && caller in s.users && Supervises(s.users[caller].role)
    requires id in s.tasks && MayEvaluate(caller, s.users[caller], s.tasks[id])
    requires penalty < 0 && Located(s.logs, (s.tasks[id].assignedTo, today)).pointsEarned + penalty < 0
    ensures var r := Evaluate(s, caller, id, "approved", note, Some(penalty), today, now);
            var a := s.tasks[id].assignedTo;
      && r.outcome == Invalid
      && r.state.tasks == s.tasks && r.state.logs == s.logs
      && r.state.users[a].points == s.users[a].points + penalty
  {
  }

  /** Nothing stops a second approval of an approved task: it credits the
      employee's balance and the day's entry a second time. */
  lemma ReapprovalCreditsAgain(s: State, caller: UserId, id: TaskId, note: Option<string>, again: Option<string>,
                               supplied: Option<int>, today: Day, now: Time, later: Time)
    requires Valid(s) && caller in s.users
    requires Evaluate(s, caller, id, "approved", note, supplied, today, now).outcome == Ok
    requires supplied.Some? ==> supplied.value >= 0
    ensures var first := Evaluate(s, caller, id, "approved", note, supplied, today, now);
            var second := Evaluate(first.state, caller, id, "approved", again, supplied, today, later);
            var a, award := s.tasks[id].assignedTo, first.state.tasks[id].pointsAwarded;
      && second.outcome == Ok
      && second.state.tasks[id].status == Completed
      && second.state.users[a].points == s.users[a].points + 2 * award
      && Located(second.state.logs, (a, today)).pointsEarned == Located(s.logs, (a, today)).pointsEarned + 2 * award
      && Located(second.state.logs, (a, today)).tasksCompleted == Located(s.logs, (a, today)).tasksCompleted + 2
  {
    var first := Evaluate(s, caller, id, "approved", note, supplied, today, now);
    EvaluatePreservesValid(s, caller, id, "approved", note, supplied, today, now);
    var a := s.tasks[id].assignedTo;
    assert first.state.tasks[id].points == s.tasks[id].points;
    assert (a, today) in first.state.logs;
  }

  /** Rejecting an approved task flips its status but keeps its award and
      the credit already made, so a task can be `rejected` with a non-zero
      `pointsAwarded`. */
  lemma RejectionAfterApprovalKeepsCredit(s: State, caller: UserId, id: TaskId, note: Option<string>,
                                          again: Option<string>, supplied: Option<int>,
                                          today: Day, now: Time, later: Time)
    requires caller in s.users
    requires Evaluate(s, caller, id, "approved", note, supplied, today, now).outcome == Ok
    ensures var first := Evaluate(s, caller, id, "approved", note, supplied, today, now);
            var second := Evaluate(first.state, caller, id, "rejected", again, None, today, later);
      && second.outcome == Ok
      && second.state.tasks[id].status == Rejected
      && second.state.tasks[id].evaluationStatus == Declined
      && second.state.tasks[id].pointsAwarded == first.state.tasks[id].pointsAwarded
      && second.state.users == first.state.users
      && second.state.logs == first.state.logs
  {
  }

  /** The lifecycle run end to end: a manager creates a 10-point task for a
      subordinate, the subordinate submits it, the manager approves it
      without an override; the task is completed with 10 points awarded, the
      balance and the day's entry gain 10 points and one completed task. */
  lemma CreateSubmitApprove(s: State, manager: UserId, employee: UserId, title: string, description: string,
                            deadline: Time, files: seq<Upload>, today: Day, now: Time)
    requires Valid(s) && manager in s.users && employee in s.users
    requires s.users[manager].role == Manager && employee in s.users[manager].subordinates
    requires title != "" && description != "" && |files| <= MaxUploads
    ensures var created := Create(s, manager, title, description, 10, employee, Some(deadline), now);
            var id := s.nextId;
            var submitted := Submit(created.state, employee, id, files, None, now);
            var approved := Evaluate(submitted.state, manager, id, "approved", None, None, today, now);
      && created.outcome == Ok && submitted.outcome == Ok && approved.outcome == Ok
      && approved.state.tasks[id].status == Completed
      && approved.state.tasks[id].evaluationStatus == Approved
      && approved.state.tasks[id].pointsAwarded == 10
      && approved.state.users[employee].points == s.users[employee].points + 10
      && Located(approved.state.logs, (employee, today)).pointsEarned == Located(s.logs, (employee, today)).pointsEarned + 10
      && Located(approved.state.logs, (employee, today)).tasksCompleted == Located(s.logs, (employee, today)).tasksCompleted + 1
      && Located(approved.state.logs, (employee, today)).taskIds == Located(s.logs, (employee, today)).taskIds + [id]
  {
    var created := Create(s, manager, title, description, 10, employee, Some(deadline), now);
    var id := s.nextId;
    var submitted := Submit(created.state, employee, id, files, None, now);
    assert submitted.state.tasks[id].assignedBy == manager;
    assert submitted.state.logs == s.logs && submitted.state.users == s.users;
  }
}
