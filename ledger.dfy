/** The performance-log collection and its two upserts: hour logging, which
    overwrites a day's hours, and the credit an approval makes, which adds to
    a day's points and completed tasks. */
module Ledger {
  import opened Records

  /** The unique compound index of the collection: (employeeId, date). */
  type Key = (UserId, Day)

  /** The collection keyed by its unique index, so two entries for one key cannot exist. */
  type Logs = map<Key, Entry>

  /** Every stored entry sits under its own (employeeId, date) and satisfies the schema's bounds. */
  predicate ValidLogs(l: Logs) {
    forall k :: k in l ==> l[k].employeeId == k.0 && l[k].date == k.1 && ValidEntry(l[k])
  }

  /** The find-or-create step: the stored entry, or a fresh one with the schema's defaults. */
  function Located(l: Logs, k: Key): (e: Entry)
    ensures k in l ==> e == l[k]
    ensures k !in l ==> e == NewEntry(k.0, k.1)
    ensures ValidLogs(l) ==> e.employeeId == k.0 && e.date == k.1 && ValidEntry(e)
  {
    if k in l then l[k] else NewEntry(k.0, k.1)
  }

  /** Hour logging: find or create the (employee, day) entry, then overwrite its hours. */
  function WithHours(l: Logs, k: Key, hours: real): (r: Logs)
    ensures r.Keys == l.Keys + {k}
    ensures forall j :: j in l && j != k ==> r[j] == l[j]
    ensures r[k].hoursWorked == hours
    ensures r[k].employeeId == Located(l, k).employeeId && r[k].date == Located(l, k).date
    ensures r[k].pointsEarned == Located(l, k).pointsEarned
    ensures r[k].tasksCompleted == Located(l, k).tasksCompleted
    ensures r[k].taskIds == Located(l, k).taskIds
  {
    l[k := Located(l, k).(hoursWorked := hours)]
  }

  /** The ledger credit of an approval: find or create the (employee, day)
      entry, add the points, count one more task and append its id. */
  function Credited(l: Logs, k: Key, points: int, id: TaskId): (r: Logs)
    ensures r.Keys == l.Keys + {k}
    ensures forall j :: j in l && j != k ==> r[j] == l[j]
    ensures r[k].employeeId == Located(l, k).employeeId && r[k].date == Located(l, k).date
    ensures r[k].hoursWorked == Located(l, k).hoursWorked
    ensures r[k].pointsEarned == Located(l, k).pointsEarned + points
    ensures r[k].tasksCompleted == Located(l, k).tasksCompleted + 1
    ensures r[k].taskIds == Located(l, k).taskIds + [id]
  {
    var e := Located(l, k);
    l[k := e.(pointsEarned := e.pointsEarned + points,
              tasksCompleted := e.tasksCompleted + 1,
              taskIds := e.taskIds + [id])]
  }

  /** Logging hours within 0..24 keeps the collection valid. */
  lemma WithHoursValid(l: Logs, k: Key, hours: real)
    requires ValidLogs(l) && 0.0 <= hours <= 24.0
    ensures ValidLogs(WithHours(l, k, hours))
  {
  }

  /** A credit keeps the collection valid exactly when the day's points stay non-negative. */
  lemma CreditedValid(l: Logs, k: Key, points: int, id: TaskId)
    requires ValidLogs(l)
    ensures ValidLogs(Credited(l, k, points, id)) <==> Located(l, k).pointsEarned + points >= 0
  {
    var r := Credited(l, k, points, id);
    if Located(l, k).pointsEarned + points < 0 {
      assert !ValidEntry(r[k]);
    }
  }

  /** Hours are overwritten, not summed: of two loggings for one day, the last one wins. */
  lemma HoursLastWriteWins(l: Logs, k: Key, first: real, second: real)
    ensures WithHours(WithHours(l, k, first), k, second) == WithHours(l, k, second)
  {
  }

  /** Logging hours and crediting a completion touch disjoint fields, so
      their order does not change the resulting collection. */
  lemma HoursAndCreditCommute(l: Logs, k: Key, hours: real, c: Key, points: int, id: TaskId)
    ensures WithHours(Credited(l, c, points, id), k, hours) == Credited(WithHours(l, k, hours), c, points, id)
  {
  }

  /** A run of approvals, each a (task id, points awarded) pair, credited to one day in order. */
  function CreditAll(l: Logs, k: Key, awards: seq<(TaskId, int)>): Logs
  {
    if awards == [] then l
    else
      var last := awards[|awards| - 1];
      Credited(CreditAll(l, k, awards[..|awards| - 1]), k, last.1, last.0)
  }

  function SumAwarded(awards: seq<(TaskId, int)>): int {
    if awards == [] then 0 else SumAwarded(awards[..|awards| - 1]) + awards[|awards| - 1].1
  }

  function IdsOf(awards: seq<(TaskId, int)>): seq<TaskId> {
    if awards == [] then [] else IdsOf(awards[..|awards| - 1]) + [awards[|awards| - 1].0]
  }

  /** No credit is lost: after N credits p1..pN to a day, its points have risen
      by p1 + ... + pN, its completed count by N, its ids by the N task ids in
      order, and its hours and every other entry are as before. */
  lemma {:induction false} CreditsAccumulate(l: Logs, k: Key, awards: seq<(TaskId, int)>)
    ensures var before, after := Located(l, k), Located(CreditAll(l, k, awards), k);
      && after.pointsEarned == before.pointsEarned + SumAwarded(awards)
      && after.tasksCompleted == before.tasksCompleted + |awards|
      && after.taskIds == before.taskIds + IdsOf(awards)
      && after.hoursWorked == before.hoursWorked
    ensures forall j :: j != k ==> (j in CreditAll(l, k, awards) <==> j in l)
    ensures forall j :: j != k && j in l ==> CreditAll(l, k, awards)[j] == l[j]
  {
    if awards != [] {
      var prefix := awards[..|awards| - 1];
      CreditsAccumulate(l, k, prefix);
      assert IdsOf(awards) == IdsOf(prefix) + [awards[|awards| - 1].0];
    }
  }
}
