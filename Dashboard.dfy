/** The dashboard summary of one user's tasks: the task count, the total
    expense over all of the user's rows, and the rows of the last 30 days
    listed newest first. */
module Dashboard {
  import opened Storage
  import opened Tasks

  /** `df['amount'].sum()`, in paise. */
  function SumAmounts(s: seq<TaskRecord>): int
  {
    if s == [] then 0 else s[0].amount + SumAmounts(s[1..])
  }

  lemma {:induction false} SumAppend(s: seq<TaskRecord>, x: TaskRecord)
    ensures SumAmounts(s + [x]) == SumAmounts(s) + x.amount
  {
    if s == [] {
      assert [] + [x] == [x];
    } else {
      assert (s + [x])[0] == s[0];
      assert (s + [x])[1..] == s[1..] + [x];
      SumAppend(s[1..], x);
    }
  }

  /** Splitting the rows by a mask and its complement splits the sum: what
      one part leaves out the other part counts. */
  lemma {:induction false} SumSplit(keep: TaskRecord -> bool, drop: TaskRecord -> bool, s: seq<TaskRecord>)
    requires forall x :: drop(x) == !keep(x)
    ensures SumAmounts(s) == SumAmounts(Filter(keep, s)) + SumAmounts(Filter(drop, s))
  {
    if s != [] {
      SumSplit(keep, drop, s[1..]);
    }
  }

  /** Every stored amount is non-negative (the sub-amount inputs have a
      minimum of 0). */
  ghost predicate NonNegativeAmounts(s: seq<TaskRecord>)
  {
    forall i :: 0 <= i < |s| ==> s[i].amount >= 0
  }

  lemma {:induction false} SumNonNegative(s: seq<TaskRecord>)
    requires NonNegativeAmounts(s)
    ensures SumAmounts(s) >= 0
  {
    if s != [] {
      assert NonNegativeAmounts(s[1..]) by {
        forall i | 0 <= i < |s[1..]| ensures s[1..][i].amount >= 0 {
          assert s[1..][i] == s[i + 1];
        }
      }
      SumNonNegative(s[1..]);
    }
  }

  // ---------------------------------------------------------------------
  // The 30-day window

  const WindowDays: real := 30.0

  /** `df["date"] >= datetime.now() - timedelta(days=30)`. `now` counts days,
      its fractional part being the time of day; a parsed date is at midnight
      of its day; an unparseable date compares false. */
  predicate InWindow(now: real, t: TaskRecord)
  {
    t.date.Some? && t.date.value as real >= now - WindowDays
  }

  function RecentRows(rows: seq<TaskRecord>, now: real): seq<TaskRecord>
  {
    Filter((t: TaskRecord) => InWindow(now, t), rows)
  }

  /** The rows the window leaves out: older, or without a parsed date. */
  function OlderRows(rows: seq<TaskRecord>, now: real): seq<TaskRecord>
  {
    Filter((t: TaskRecord) => !InWindow(now, t), rows)
  }

  /** The window in whole days. Because the cutoff carries the time of day
      and dates sit at midnight, a date 30 days back is only inside the
      window at exactly midnight; otherwise the oldest day shown is 29 days
      back. */
  lemma WindowInDays(now: real, d: int)
    ensures now == now.Floor as real ==> (d as real >= now - WindowDays <==> d >= now.Floor - 30)
    ensures now != now.Floor as real ==> (d as real >= now - WindowDays <==> d >= now.Floor - 29)
  {
    var f := now.Floor;
    assert f as real <= now < f as real + 1.0;
    if now != f as real {
      if d >= f - 29 {
        assert d as real >= (f - 29) as real;
      } else {
        assert d <= f - 30;
        assert d as real <= (f - 30) as real;
      }
    }
  }

  // ---------------------------------------------------------------------
  // `sort_values("date", ascending=False)`

  /** A row dated `a` may be listed before one dated `b`: `a` is not earlier
      than `b`, and an unparseable date sorts last. */
  predicate NotEarlier(a: Option<int>, b: Option<int>)
  {
    b.None? || (a.Some? && a.value >= b.value)
  }

  ghost predicate NewestFirst(s: seq<TaskRecord>)
  {
    forall i, j :: 0 <= i < j < |s| ==> NotEarlier(s[i].date, s[j].date)
  }

  function Insert(x: TaskRecord, s: seq<TaskRecord>): (r: seq<TaskRecord>)
    ensures multiset(r) == multiset(s) + multiset{x}
  {
    if s == [] || NotEarlier(x.date, s[0].date) then [x] + s
    else
      assert s == [s[0]] + s[1..];
      [s[0]] + Insert(x, s[1..])
  }

  /** A list is newest first when its head is not earlier than any later row
      and its tail is newest first. */
  lemma NewestFirstCons(y: TaskRecord, s: seq<TaskRecord>)
    requires forall j :: 0 <= j < |s| ==> NotEarlier(y.date, s[j].date)
    requires NewestFirst(s)
    ensures NewestFirst([y] + s)
  {
    var r := [y] + s;
    forall i, j | 0 <= i < j < |r| ensures NotEarlier(r[i].date, r[j].date) {
      assert r[j] == s[j - 1];
      if i > 0 {
        assert r[i] == s[i - 1];
      }
    }
  }

  lemma NewestFirstTail(s: seq<TaskRecord>)
    requires NewestFirst(s) && s != []
    ensures NewestFirst(s[1..])
    ensures forall j :: 0 <= j < |s[1..]| ==> NotEarlier(s[0].date, s[1..][j].date)
  {
    forall i, j | 0 <= i < j < |s[1..]| ensures NotEarlier(s[1..][i].date, s[1..][j].date) {
      assert s[1..][i] == s[i + 1] && s[1..][j] == s[j + 1];
    }
    forall j | 0 <= j < |s[1..]| ensures NotEarlier(s[0].date, s[1..][j].date) {
      assert s[1..][j] == s[j + 1];
    }
  }

  /** Inserting into a newest-first list keeps it newest first. */
  lemma {:induction false} InsertKeepsOrder(x: TaskRecord, s: seq<TaskRecord>)
    requires NewestFirst(s)
    ensures NewestFirst(Insert(x, s))
  {
    if s == [] || NotEarlier(x.date, s[0].date) {
      if s != [] {
        NewestFirstTail(s);
        forall j | 0 <= j < |s| ensures NotEarlier(x.date, s[j].date) {
          if j > 0 {
            assert s[1..][j - 1] == s[j];
          }
        }
      }
      NewestFirstCons(x, s);
    } else {
      NewestFirstTail(s);
      var rest := Insert(x, s[1..]);
      InsertKeepsOrder(x, s[1..]);
      forall j | 0 <= j < |rest| ensures NotEarlier(s[0].date, rest[j].date) {
        assert rest[j] in multiset(rest);
        if rest[j] != x {
          assert rest[j] in multiset(s[1..]);
          var k :| 0 <= k < |s[1..]| && s[1..][k] == rest[j];
        }
      }
      NewestFirstCons(s[0], rest);
    }
  }

  /** The recent rows in the order the dashboard lists them. */
  function SortNewestFirst(s: seq<TaskRecord>): (r: seq<TaskRecord>)
    ensures multiset(r) == multiset(s)
    ensures NewestFirst(r)
  {
    if s == [] then []
    else
      assert s == [s[0]] + s[1..];
      var sorted := SortNewestFirst(s[1..]);
      InsertKeepsOrder(s[0], sorted);
      Insert(s[0], sorted)
  }

  // ---------------------------------------------------------------------
  // The summary

  datatype Summary = Summary(taskCount: nat, totalExpense: int, recent: seq<TaskRecord>)

  /** The summary computed from a table of rows that loaded with the
      expected columns. */
  function SummaryOf(rows: seq<TaskRecord>, now: real): Summary
  {
    Summary(|rows|, if |rows| == 0 then 0 else SumAmounts(rows), SortNewestFirst(RecentRows(rows, now)))
  }

  /** The dashboard for `username`: "Total Tasks" counts all of the user's
      rows, "Total Expense" sums all of their amounts (recent or not, 0 when
      there are none), and "Recent Tasks" holds exactly the user's rows with
      a parsed date inside the window, newest first. A table that cannot be
      read shows an empty dashboard. */
  function Summarize(t: Table<TaskRecord>, username: string, now: real): (r: Summary)
    ensures r.taskCount == |LoadTasks(t, username)|
    ensures r.totalExpense == SumAmounts(LoadTasks(t, username))
    ensures forall x :: x in r.recent <==> x in LoadTasks(t, username) && InWindow(now, x)
    ensures forall i :: 0 <= i < |r.recent| ==> r.recent[i].date.Some?
    ensures multiset(r.recent) == multiset(RecentRows(LoadTasks(t, username), now))
    ensures NewestFirst(r.recent)
    ensures t.Unreadable? ==> r == Summary(0, 0, [])
  {
    var rows := LoadTasks(t, username);
    RecentMembership(rows, now);
    SummaryOf(rows, now)
  }

  lemma RecentMembership(rows: seq<TaskRecord>, now: real)
    ensures forall x :: x in SummaryOf(rows, now).recent <==> x in rows && InWindow(now, x)
    ensures forall i :: 0 <= i < |SummaryOf(rows, now).recent| ==> SummaryOf(rows, now).recent[i].date.Some?
  {
    var recent := RecentRows(rows, now);
    FilterMembership((t: TaskRecord) => InWindow(now, t), rows);
    var sorted := SummaryOf(rows, now).recent;
    assert multiset(sorted) == multiset(recent);
    forall x ensures x in sorted <==> x in recent {
      assert x in sorted <==> x in multiset(sorted);
      assert x in recent <==> x in multiset(recent);
    }
    forall i | 0 <= i < |sorted| ensures sorted[i].date.Some? {
      assert sorted[i] in sorted;
    }
  }

  /** "Total Expense" covers all of the user's rows: the recent ones plus
      those outside the window or without a parsed date. */
  lemma TotalIncludesOlderRows(t: Table<TaskRecord>, username: string, now: real)
    ensures Summarize(t, username, now).totalExpense
         == SumAmounts(RecentRows(LoadTasks(t, username), now)) + SumAmounts(OlderRows(LoadTasks(t, username), now))
  {
    SumSplit((x: TaskRecord) => InWindow(now, x), (x: TaskRecord) => !InWindow(now, x), LoadTasks(t, username));
  }

  /** One submitted task adds one to its owner's count and its amount to
      their total. */
  lemma DashboardAfterAppend(t: Table<TaskRecord>, row: TaskRecord, now: real)
    ensures Summarize(Appended(t, row), row.username, now).taskCount == Summarize(t, row.username, now).taskCount + 1
    ensures Summarize(Appended(t, row), row.username, now).totalExpense == Summarize(t, row.username, now).totalExpense + row.amount
  {
    LoadAfterAppend(t, row);
    SumAppend(LoadTasks(t, row.username), row);
  }

  /** The table after a run of task submissions, in order. */
  function AppendAll(t: Table<TaskRecord>, rows: seq<TaskRecord>): Table<TaskRecord>
    decreases |rows|
  {
    if rows == [] then t else Appended(AppendAll(t, rows[..|rows| - 1]), rows[|rows| - 1])
  }

  /** A run of submissions appends its rows, in order, to the loaded table. */
  lemma {:induction false} AppendAllRows(t: Table<TaskRecord>, rows: seq<TaskRecord>)
    ensures Load(AppendAll(t, rows)) == Load(t) + rows
    decreases |rows|
  {
    if rows == [] {
      assert Load(t) + rows == Load(t);
    } else {
      var init := rows[..|rows| - 1];
      AppendAllRows(t, init);
      assert init + [rows[|rows| - 1]] == rows;
      assert Load(t) + init + [rows[|rows| - 1]] == Load(t) + rows;
    }
  }

  /** After a run of submissions by one user, their tasks are the earlier
      ones followed by the submitted rows, in order. */
  lemma LoadAfterAppendAll(t: Table<TaskRecord>, username: string, rows: seq<TaskRecord>)
    requires forall i :: 0 <= i < |rows| ==> rows[i].username == username
    ensures LoadTasks(AppendAll(t, rows), username) == LoadTasks(t, username) + rows
  {
    var keep := (x: TaskRecord) => OwnedBy(username, x);
    AppendAllRows(t, rows);
    FilterConcat(keep, Load(t), rows);
    FilterKeepsAll(keep, rows);
  }

  lemma {:induction false} SumConcat(a: seq<TaskRecord>, b: seq<TaskRecord>)
    ensures SumAmounts(a + b) == SumAmounts(a) + SumAmounts(b)
  {
    if a == [] {
      assert a + b == b;
    } else {
      assert (a + b)[1..] == a[1..] + b;
      SumConcat(a[1..], b);
    }
  }

  /** After N submissions by one user, the dashboard counts N more tasks and
      its total grows by exactly the submitted amounts. */
  lemma SubmissionsCounted(t: Table<TaskRecord>, username: string, rows: seq<TaskRecord>, now: real)
    requires forall i :: 0 <= i < |rows| ==> rows[i].username == username
    ensures Summarize(AppendAll(t, rows), username, now).taskCount == Summarize(t, username, now).taskCount + |rows|
    ensures Summarize(AppendAll(t, rows), username, now).totalExpense == Summarize(t, username, now).totalExpense + SumAmounts(rows)
  {
    LoadAfterAppendAll(t, username, rows);
    SumConcat(LoadTasks(t, username), rows);
  }

  // ---------------------------------------------------------------------
  // The dashboard as the page script computes it

  /** What the page as written gets on screen: the two metrics, and the
      recent list, `None` where the script stops with an error before
      listing anything. */
  datatype ShownDashboard = ShownDashboard(taskCount: nat, totalExpense: int, recent: Option<seq<TaskRecord>>)

  /** The dashboard as written. After a failed read load_tasks returns a
      frame with no rows and no columns. "Total Tasks" then shows 0, and the
      `df.empty` guard makes "Total Expense" show 0 without reading the
      amount column. The heading follows, but selecting the missing "date"
      column for the window raises a key error, so no recent list is shown.
      On a readable table every part is the intended summary. */
  function SummarizeAsWritten(t: Table<TaskRecord>, username: string, now: real): (r: ShownDashboard)
    ensures r.taskCount == Summarize(t, username, now).taskCount
    ensures r.totalExpense == Summarize(t, username, now).totalExpense
    ensures r.recent.None? <==> t.Unreadable?
    ensures r.recent.Some? ==> r.recent.value == Summarize(t, username, now).recent
  {
    var df := LoadTasks(t, username);
    var shown := SummaryOf(df, now);
    match t
    case Unreadable => ShownDashboard(shown.taskCount, shown.totalExpense, None)
    case Readable(_) => ShownDashboard(shown.taskCount, shown.totalExpense, Some(shown.recent))
  }

  /** The discrepancy: with an unreadable tasks file the page as written
      shows 0 tasks and a total of 0 and then fails on the recent list, where
      an empty list was evidently intended. */
  lemma DashboardFailsOnUnreadableFile(username: string, now: real)
    ensures SummarizeAsWritten(Unreadable, username, now) == ShownDashboard(0, 0, None)
    ensures Summarize(Unreadable, username, now) == Summary(0, 0, [])
  {
  }
}
