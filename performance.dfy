/** The performance handlers: logging hours, the per-employee query with
    its totals and averages, and the team rollup over a supervisor's
    subordinates. */
module Performance {
  import opened Records
  import opened Ledger
  import opened Store

  // ------------------------------------------------------------- log hours

  /** `/log-hours`: upsert the caller's entry for the day and overwrite its
      hours; hours outside 0..24 fail the entry's validator and nothing is saved. */
  function LogHours(s: State, caller: UserId, day: Day, hours: real): (r: Step)
    ensures ValidLogs(s.logs) ==> (r.outcome == Ok <==> 0.0 <= hours <= 24.0)
    ensures !(0.0 <= hours <= 24.0) ==> r == Step(Invalid, s)
    ensures r.outcome != Ok ==> r == Step(Invalid, s)
    ensures r.outcome == Ok ==> r.state == s.(logs := WithHours(s.logs, (caller, day), hours))
  {
    var e := Located(s.logs, (caller, day)).(hoursWorked := hours);
    if !ValidEntry(e) then Step(Invalid, s)
    else Step(Ok, s.(logs := s.logs[(caller, day) := e]))
  }

  lemma LogHoursPreservesValid(s: State, caller: UserId, day: Day, hours: real)
    requires Valid(s)
    ensures Valid(LogHours(s, caller, day, hours).state)
  {
    if 0.0 <= hours <= 24.0 {
      WithHoursValid(s.logs, (caller, day), hours);
    }
  }

  /** Logging 5 hours and then 7 for the same day leaves 7, with the day's points untouched. */
  lemma LoggingTwiceKeepsLast(s: State, caller: UserId, day: Day)
    requires ValidLogs(s.logs)
    ensures var first := LogHours(s, caller, day, 5.0);
            var second := LogHours(first.state, caller, day, 7.0);
      && second.outcome == Ok
      && second.state.logs[(caller, day)].hoursWorked == 7.0
      && second.state.logs[(caller, day)].pointsEarned == Located(s.logs, (caller, day)).pointsEarned
      && second.state.logs == WithHours(s.logs, (caller, day), 7.0)
  {
    HoursLastWriteWins(s.logs, (caller, day), 5.0, 7.0);
  }

  // ------------------------------------------------------------ ordering

  /** The store's order on entries: by date, and (a choice of this model)
      by employee id among entries of the same date. */
  predicate Before(a: Key, b: Key) {
    a.1 < b.1 || (a.1 == b.1 && a.0 < b.0)
  }

  predicate Ascending(ks: seq<Key>) {
    forall i, j :: 0 <= i < j < |ks| ==> Before(ks[i], ks[j])
  }

  predicate IsLeast(m: Key, ks: set<Key>) {
    m in ks && forall k :: k in ks && k != m ==> Before(m, k)
  }

  lemma {:induction false} LeastExists(ks: set<Key>)
    requires ks != {}
    ensures exists m :: IsLeast(m, ks)
  {
    var x :| x in ks;
    if ks != {x} {
      var rest := ks - {x};
      LeastExists(rest);
      var m :| IsLeast(m, rest);
      if Before(x, m) {
        forall k | k in ks && k != x ensures Before(x, k) {
          if k != m { assert Before(m, k); }
        }
        assert IsLeast(x, ks);
      } else {
        assert IsLeast(m, ks);
      }
    } else {
      assert IsLeast(x, ks);
    }
  }

  /** The keys of a finite set in ascending order. */
  function Sorted(ks: set<Key>): (s: seq<Key>)
    ensures Ascending(s)
    ensures forall k :: k in s <==> k in ks
    decreases ks
  {
    if ks == {} then []
    else
      LeastExists(ks);
      var m :| IsLeast(m, ks);
      [m] + Sorted(ks - {m})
  }

  /** A non-empty sorted sequence starts with the least key and goes on with the sorted rest. */
  lemma SortedUnfold(ks: set<Key>)
    requires ks != {}
    ensures var s := Sorted(ks); |s| > 0 && IsLeast(s[0], ks) && s[1..] == Sorted(ks - {s[0]})
  {
  }

  function Elements(ks: seq<Key>): set<Key> {
    set k | k in ks
  }

  lemma LeastUnique(m: Key, n: Key, ks: set<Key>)
    requires IsLeast(m, ks) && IsLeast(n, ks)
    ensures m == n
  {
  }

  lemma AscendingHeadLeast(a: seq<Key>)
    requires Ascending(a) && a != []
    ensures IsLeast(a[0], Elements(a))
  {
    forall k | k in Elements(a) && k != a[0] ensures Before(a[0], k) {
      var i :| 0 <= i < |a| && a[i] == k;
      assert i != 0;
    }
  }

  lemma AscendingTail(a: seq<Key>)
    requires Ascending(a) && a != []
    ensures Ascending(a[1..])
    ensures Elements(a[1..]) == Elements(a) - {a[0]}
  {
    var tail := a[1..];
    forall k | k in tail ensures k != a[0] {
      var i :| 0 <= i < |tail| && tail[i] == k;
      assert Before(a[0], a[i + 1]);
    }
    assert forall k :: k in a && k != a[0] ==> k in tail;
  }

  /** An ascending sequence is the sorted order of its own elements. */
  lemma {:induction false} AscendingIsSorted(a: seq<Key>)
    requires Ascending(a)
    ensures Sorted(Elements(a)) == a
  {
    if a != [] {
      var all := Elements(a);
      AscendingHeadLeast(a);
      AscendingTail(a);
      SortedUnfold(all);
      var s := Sorted(all);
      LeastUnique(s[0], a[0], all);
      AscendingIsSorted(a[1..]);
      assert s == [s[0]] + s[1..];
      assert a == [a[0]] + a[1..];
    }
  }

  /** The entries stored under the given keys, in the keys' order. */
  function EntriesAt(l: Logs, ks: seq<Key>): (s: seq<Entry>)
    requires forall k :: k in ks ==> k in l
    ensures |s| == |ks|
    ensures forall i :: 0 <= i < |ks| ==> s[i] == l[ks[i]]
  {
    if ks == [] then []
    else EntriesAt(l, ks[..|ks| - 1]) + [l[ks[|ks| - 1]]]
  }

  // ------------------------------------------------------------ /data

  /** Whose entries `/data` reads: a supervisor may name any user, everyone
      else always gets their own. */
  function Target(caller: UserId, role: Role, userId: Option<UserId>): (t: UserId)
    ensures !Supervises(role) || userId.None? ==> t == caller
    ensures Supervises(role) && userId.Some? ==> t == userId.value
  {
    if userId.Some? && (role == Manager || role == Founder) then userId.value else caller
  }

  function DataKeys(l: Logs, u: UserId, r: Range): set<Key> {
    set k | k in l && k.0 == u && InRange(k.1, r)
  }

  /** The entries `/data` returns for one employee over a date range, ascending by date. */
  function DataLogs(l: Logs, u: UserId, r: Range): seq<Entry> {
    EntriesAt(l, Sorted(DataKeys(l, u, r)))
  }

  /** The query returns exactly the employee's entries dated inside the
      inclusive bounds, each once, in strictly ascending date order. */
  lemma DataLogsSpec(l: Logs, u: UserId, r: Range)
    requires ValidLogs(l)
    ensures var s := DataLogs(l, u, r);
      && (forall i :: 0 <= i < |s| ==>
            s[i].employeeId == u && InRange(s[i].date, r) && (u, s[i].date) in l && l[(u, s[i].date)] == s[i])
      && (forall i, j :: 0 <= i < j < |s| ==> s[i].date < s[j].date)
      && (forall k :: k in l && k.0 == u && InRange(k.1, r) ==> l[k] in s)
  {
    var ks := Sorted(DataKeys(l, u, r));
    var s := DataLogs(l, u, r);
    forall k | k in l && k.0 == u && InRange(k.1, r) ensures l[k] in s {
      assert k in ks;
      var i :| 0 <= i < |ks| && ks[i] == k;
      assert s[i] == l[k];
    }
    forall i | 0 <= i < |s|
      ensures s[i].employeeId == u && InRange(s[i].date, r) && (u, s[i].date) in l && l[(u, s[i].date)] == s[i]
    {
      assert ks[i] in DataKeys(l, u, r);
      assert ks[i] == (u, s[i].date);
    }
    forall i, j | 0 <= i < j < |s| ensures s[i].date < s[j].date {
      assert ks[i] in DataKeys(l, u, r) && ks[j] in DataKeys(l, u, r);
      assert Before(ks[i], ks[j]);
    }
  }

  /** An employee who names somebody else still sees only their own entries. */
  lemma EmployeeSeesOwnData(l: Logs, caller: UserId, userId: Option<UserId>, r: Range)
    ensures DataLogs(l, Target(caller, Employee, userId), r) == DataLogs(l, caller, r)
  {
  }

  // Left folds over the returned entries, as `reduce` computes them.

  function TotalHours(s: seq<Entry>): real {
    if s == [] then 0.0 else TotalHours(s[..|s| - 1]) + s[|s| - 1].hoursWorked
  }

  function TotalPoints(s: seq<Entry>): int {
    if s == [] then 0 else TotalPoints(s[..|s| - 1]) + s[|s| - 1].pointsEarned
  }

  function TotalTasks(s: seq<Entry>): int {
    if s == [] then 0 else TotalTasks(s[..|s| - 1]) + s[|s| - 1].tasksCompleted
  }

  datatype Stats = Stats(
    totalHours: real,
    totalPoints: int,
    totalTasks: int,
    averageHoursPerDay: real,
    averagePointsPerDay: real)

  /** The stats of `/data`: the totals, and averages per returned entry that
      are 0 when no entry is returned, so nothing is ever divided by zero. */
  function Summarize(s: seq<Entry>): (st: Stats)
    ensures st.totalHours == TotalHours(s) && st.totalPoints == TotalPoints(s) && st.totalTasks == TotalTasks(s)
    ensures |s| == 0 ==> st.averageHoursPerDay == 0.0 && st.averagePointsPerDay == 0.0
    ensures |s| > 0 ==> st.averageHoursPerDay * (|s| as real) == st.totalHours
    ensures |s| > 0 ==> st.averagePointsPerDay * (|s| as real) == st.totalPoints as real
  {
    var hours, points, tasks := TotalHours(s), TotalPoints(s), TotalTasks(s);
    if |s| > 0 then Stats(hours, points, tasks, hours / (|s| as real), (points as real) / (|s| as real))
    else Stats(hours, points, tasks, 0.0, 0.0)
  }

  datatype DataReply = DataReply(logs: seq<Entry>, stats: Stats)

  /** `/data`: the target's entries in range, ascending by date, and their
      stats. The store's entries always satisfy the schema. */
  function Data(l: Logs, caller: UserId, role: Role, userId: Option<UserId>, r: Range): (d: DataReply)
    requires ValidLogs(l)
    ensures var t := Target(caller, role, userId);
      forall i :: 0 <= i < |d.logs| ==>
        d.logs[i].employeeId == t && InRange(d.logs[i].date, r) && (t, d.logs[i].date) in l && l[(t, d.logs[i].date)] == d.logs[i]
    ensures forall i, j :: 0 <= i < j < |d.logs| ==> d.logs[i].date < d.logs[j].date
    ensures var t := Target(caller, role, userId);
      forall k :: k in l && k.0 == t && InRange(k.1, r) ==> l[k] in d.logs
    ensures d.stats == Summarize(d.logs)
    ensures d.stats.totalHours == TotalHours(d.logs) && d.stats.totalPoints == TotalPoints(d.logs)
    ensures d.stats.totalTasks == TotalTasks(d.logs)
  {
    var t := Target(caller, role, userId);
    DataLogsSpec(l, t, r);
    var logs := DataLogs(l, t, r);
    DataReply(logs, Summarize(logs))
  }

  /** With no entry in range, every total and both averages are 0. */
  lemma EmptyRangeZeroStats(l: Logs, u: UserId, r: Range)
    requires forall k :: k in l && k.0 == u ==> !InRange(k.1, r)
    ensures DataLogs(l, u, r) == []
    ensures Summarize(DataLogs(l, u, r)) == Stats(0.0, 0, 0, 0.0, 0.0)
  {
    assert DataKeys(l, u, r) == {};
  }

  // ------------------------------------------------------------ /team

  /** One employee's row of the team rollup. */
  datatype TeamRow = TeamRow(employee: User, totalHours: real, totalPoints: int, totalTasks: int, logs: seq<Entry>)

  /** The entries of one employee, in the order they occur. */
  function OfEmployee(s: seq<Entry>, u: UserId): seq<Entry> {
    if s == [] then []
    else OfEmployee(s[..|s| - 1], u) + (if s[|s| - 1].employeeId == u then [s[|s| - 1]] else [])
  }

  function KeysOf(ks: seq<Key>, u: UserId): seq<Key> {
    if ks == [] then []
    else KeysOf(ks[..|ks| - 1], u) + (if ks[|ks| - 1].0 == u then [ks[|ks| - 1]] else [])
  }

  lemma {:induction false} KeysOfMembers(ks: seq<Key>, u: UserId)
    ensures forall k :: k in KeysOf(ks, u) <==> k in ks && k.0 == u
  {
    if ks != [] {
      var n := |ks| - 1;
      KeysOfMembers(ks[..n], u);
      assert ks == ks[..n] + [ks[n]];
    }
  }

  lemma {:induction false} KeysOfSpec(ks: seq<Key>, u: UserId)
    ensures forall k :: k in KeysOf(ks, u) <==> k in ks && k.0 == u
    ensures Ascending(ks) ==> Ascending(KeysOf(ks, u))
  {
    KeysOfMembers(ks, u);
    if ks != [] {
      var n := |ks| - 1;
      var prefix := ks[..n];
      KeysOfSpec(prefix, u);
      assert ks == prefix + [ks[n]];
      if Ascending(ks) {
        assert Ascending(prefix);
        var f := KeysOf(prefix, u);
        if ks[n].0 == u {
          forall i | 0 <= i < |f| ensures Before(f[i], ks[n]) {
            assert f[i] in prefix;
            var j :| 0 <= j < n && prefix[j] == f[i];
            assert ks[j] == f[i];
          }
        }
      }
    }
  }

  lemma EntriesAtSnoc(l: Logs, ks: seq<Key>, k: Key)
    requires forall j :: j in ks ==> j in l
    requires k in l
    ensures EntriesAt(l, ks + [k]) == EntriesAt(l, ks) + [l[k]]
  {
    assert (ks + [k])[..|ks|] == ks;
  }

  lemma OfEmployeeSnoc(s: seq<Entry>, e: Entry, u: UserId)
    ensures OfEmployee(s + [e], u) == OfEmployee(s, u) + (if e.employeeId == u then [e] else [])
  {
    assert (s + [e])[..|s|] == s;
  }

  lemma KeysOfSnoc(ks: seq<Key>, k: Key, u: UserId)
    ensures KeysOf(ks + [k], u) == KeysOf(ks, u) + (if k.0 == u then [k] else [])
  {
    assert (ks + [k])[..|ks|] == ks;
  }

  /** Selecting one employee's entries commutes with looking the keys up. */
  lemma {:induction false} OfEmployeeEntries(l: Logs, ks: seq<Key>, u: UserId)
    requires ValidLogs(l)
    requires forall k :: k in ks ==> k in l
    ensures forall k :: k in KeysOf(ks, u) ==> k in l
    ensures OfEmployee(EntriesAt(l, ks), u) == EntriesAt(l, KeysOf(ks, u))
  {
    KeysOfMembers(ks, u);
    if ks != [] {
      var prefix, last := ks[..|ks| - 1], ks[|ks| - 1];
      assert ks == prefix + [last];
      OfEmployeeEntries(l, prefix, u);
      KeysOfMembers(prefix, u);
      EntriesAtSnoc(l, prefix, last);
      OfEmployeeSnoc(EntriesAt(l, prefix), l[last], u);
      KeysOfSnoc(prefix, last, u);
      if last.0 == u {
        EntriesAtSnoc(l, KeysOf(prefix, u), last);
      }
    }
  }

  function TeamKeys(l: Logs, subordinates: seq<UserId>, r: Range): set<Key> {
    set k | k in l && k.0 in subordinates && InRange(k.1, r)
  }

  /** The entries the `/team` query fetches: every subordinate's entries in range, ascending. */
  function TeamLogs(l: Logs, subordinates: seq<UserId>, r: Range): seq<Entry> {
    EntriesAt(l, Sorted(TeamKeys(l, subordinates, r)))
  }

  /** Some entry the team query fetches belongs to a subordinate with no
      user record: populating its employee yields nothing, and reading the
      id of nothing crashes the handler. */
  predicate Dangling(users: map<UserId, User>, l: Logs, subordinates: seq<UserId>, r: Range) {
    exists k :: k in TeamKeys(l, subordinates, r) && k.0 !in users
  }

  /** The dangling case, seen on the fetched entries themselves. */
  lemma DanglingFound(users: map<UserId, User>, l: Logs, subordinates: seq<UserId>, r: Range)
    requires ValidLogs(l)
    ensures var found := TeamLogs(l, subordinates, r);
      Dangling(users, l, subordinates, r) <==> exists i :: 0 <= i < |found| && found[i].employeeId !in users
  {
    var ks := Sorted(TeamKeys(l, subordinates, r));
    var found := TeamLogs(l, subordinates, r);
    if Dangling(users, l, subordinates, r) {
      var k :| k in TeamKeys(l, subordinates, r) && k.0 !in users;
      assert k in ks;
      var i :| 0 <= i < |ks| && ks[i] == k;
      assert found[i].employeeId !in users;
    }
    if exists i :: 0 <= i < |found| && found[i].employeeId !in users {
      var i :| 0 <= i < |found| && found[i].employeeId !in users;
      assert ks[i] in TeamKeys(l, subordinates, r);
    }
  }

  /** A subordinate's share of the team query is exactly what `/data` returns for them. */
  lemma TeamShareIsData(l: Logs, subordinates: seq<UserId>, r: Range, u: UserId)
    requires ValidLogs(l) && u in subordinates
    ensures OfEmployee(TeamLogs(l, subordinates, r), u) == DataLogs(l, u, r)
  {
    var team := Sorted(TeamKeys(l, subordinates, r));
    OfEmployeeEntries(l, team, u);
    KeysOfSpec(team, u);
    assert Elements(KeysOf(team, u)) == DataKeys(l, u, r);
    AscendingIsSorted(KeysOf(team, u));
  }

  /** A row whose totals are those of the given entries. */
  function RowOf(employee: User, logs: seq<Entry>): TeamRow {
    TeamRow(employee, TotalHours(logs), TotalPoints(logs), TotalTasks(logs), logs)
  }

  /** Taking one more entry adds it to its own employee's share and leaves every other share alone. */
  lemma OfEmployeeStep(s: seq<Entry>, j: nat, u: UserId)
    requires j < |s|
    ensures OfEmployee(s[..j + 1], u) == OfEmployee(s[..j], u) + (if s[j].employeeId == u then [s[j]] else [])
  {
    assert s[..j + 1][..j] == s[..j];
  }

  /** The increments the second loop of `/team` makes for one entry. */
  function AddTo(row: TeamRow, e: Entry): TeamRow {
    row.(totalHours := row.totalHours + e.hoursWorked,
         totalPoints := row.totalPoints + e.pointsEarned,
         totalTasks := row.totalTasks + e.tasksCompleted,
         logs := row.logs + [e])
  }

  /** Adding an entry to a row's logs raises each total by that entry's value. */
  lemma RowOfStep(employee: User, logs: seq<Entry>, e: Entry)
    ensures RowOf(employee, logs + [e]) == AddTo(RowOf(employee, logs), e)
  {
    assert (logs + [e])[..|logs|] == logs;
  }

  /** The first loop of `/team`: an empty row for every subordinate that exists. */
  method StartRows(users: map<UserId, User>, subordinates: seq<UserId>) returns (rows: map<UserId, TeamRow>)
    ensures forall u :: u in rows <==> u in subordinates && u in users
    ensures forall u :: u in rows ==> rows[u] == RowOf(users[u], [])
  {
    rows := map[];
    var i := 0;
    while i < |subordinates|
      invariant 0 <= i <= |subordinates|
      invariant forall u :: u in rows <==> u in subordinates[..i] && u in users
      invariant forall u :: u in rows ==> rows[u] == RowOf(users[u], [])
    {
      var u := subordinates[i];
      if u in users {
        rows := rows[u := TeamRow(users[u], 0.0, 0, 0, [])];
      }
      assert subordinates[..i + 1] == subordinates[..i] + [u];
      i := i + 1;
    }
    assert subordinates[..i] == subordinates;
  }

  /** Every row holds the totals of its employee's share of `s`. */
  predicate RowsCover(users: map<UserId, User>, rows: map<UserId, TeamRow>, s: seq<Entry>) {
    forall u :: u in rows ==> u in users && rows[u] == RowOf(users[u], OfEmployee(s, u))
  }

  /** One more entry, added to its employee's row as the second loop does, keeps the rows covering. */
  lemma RowsCoverStep(users: map<UserId, User>, rows: map<UserId, TeamRow>, s: seq<Entry>, j: nat)
    requires j < |s| && RowsCover(users, rows, s[..j])
    ensures var e := s[j];
      RowsCover(users, if e.employeeId in rows then rows[e.employeeId := AddTo(rows[e.employeeId], e)] else rows,
                s[..j + 1])
  {
    var e := s[j];
    var next := if e.employeeId in rows then rows[e.employeeId := AddTo(rows[e.employeeId], e)] else rows;
    forall u | u in next ensures u in users && next[u] == RowOf(users[u], OfEmployee(s[..j + 1], u)) {
      OfEmployeeStep(s, j, u);
      var mine := OfEmployee(s[..j], u);
      if u == e.employeeId {
        RowOfStep(users[u], mine, e);
        assert next[u] == AddTo(RowOf(users[u], mine), e);
      } else {
        assert mine + [] == mine;
        assert next[u] == rows[u];
      }
    }
  }

  /** The second loop of `/team`: each fetched entry is added to its
      employee's row when that employee has one, and skipped otherwise. */
  method AddEntries(users: map<UserId, User>, start: map<UserId, TeamRow>, found: seq<Entry>)
    returns (rows: map<UserId, TeamRow>)
    requires forall u :: u in start ==> u in users && start[u] == RowOf(users[u], [])
    ensures rows.Keys == start.Keys
    ensures forall u :: u in rows ==> rows[u] == RowOf(users[u], OfEmployee(found, u))
  {
    rows := start;
    var j := 0;
    assert found[..0] == [];
    while j < |found|
      invariant 0 <= j <= |found|
      invariant rows.Keys == start.Keys
      invariant RowsCover(users, rows, found[..j])
    {
      var entry := found[j];
      RowsCoverStep(users, rows, found, j);
      if entry.employeeId in rows {
        var row := rows[entry.employeeId];
        row := row.(totalHours := row.totalHours + entry.hoursWorked);
        row := row.(totalPoints := row.totalPoints + entry.pointsEarned);
        row := row.(totalTasks := row.totalTasks + entry.tasksCompleted);
        row := row.(logs := row.logs + [entry]);
        rows := rows[entry.employeeId := row];
      }
      j := j + 1;
    }
    assert found[..j] == found;
  }

  /** `/team`: one row per existing subordinate, each summing that
      subordinate's entries in range; entries of anyone else are skipped.
      An entry of a subordinate without a user record crashes the second
      loop, so the whole request fails. */
  method Team(users: map<UserId, User>, l: Logs, caller: UserId, r: Range)
    returns (outcome: Outcome, rows: map<UserId, TeamRow>)
    requires caller in users && ValidLogs(l)
    ensures outcome == (if !Supervises(users[caller].role) then Forbidden
                        else if Dangling(users, l, users[caller].subordinates, r) then ServerError
                        else Ok)
    ensures outcome != Ok ==> rows == map[]
    ensures outcome == Ok ==> forall u :: u in rows <==> u in users[caller].subordinates && u in users
    ensures forall u :: u in rows ==>
      && rows[u].employee == users[u]
      && rows[u].logs == DataLogs(l, u, r)
      && rows[u].totalHours == TotalHours(rows[u].logs)
      && rows[u].totalPoints == TotalPoints(rows[u].logs)
      && rows[u].totalTasks == TotalTasks(rows[u].logs)
  {
    if !Supervises(users[caller].role) {
      return Forbidden, map[];
    }
    var subordinates := users[caller].subordinates;
    var start := StartRows(users, subordinates);
    var found := TeamLogs(l, subordinates, r);
    DanglingFound(users, l, subordinates, r);
    if exists i :: 0 <= i < |found| && found[i].employeeId !in users {
      return ServerError, map[];
    }
    rows := AddEntries(users, start, found);
    outcome := Ok;
    forall u | u in rows ensures OfEmployee(found, u) == DataLogs(l, u, r) {
      TeamShareIsData(l, subordinates, r, u);
    }
  }

  /** A subordinate with no entry in range still has a row, with zero totals and no logs. */
  lemma QuietSubordinateRow(l: Logs, u: UserId, r: Range, row: TeamRow)
    requires forall k :: k in l && k.0 == u ==> !InRange(k.1, r)
    requires row.logs == DataLogs(l, u, r)
    requires row.totalHours == TotalHours(row.logs) && row.totalPoints == TotalPoints(row.logs)
    requires row.totalTasks == TotalTasks(row.logs)
    ensures row.logs == [] && row.totalHours == 0.0 && row.totalPoints == 0 && row.totalTasks == 0
  {
    EmptyRangeZeroStats(l, u, r);
  }
}
