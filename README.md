# Task & Expense logging app — a Dafny model of its data layer

The application is a single Streamlit page script (`app.py`). Users register
and log in against a users table. They record daily tasks with optional
categorised expenses in a tasks table, and see a dashboard of their own rows.
Both tables are spreadsheet files. `login_user` and `load_tasks` only read
their file. `append_task` reads the whole file, adds one row and writes it back
whole. `register_user` does the same unless the username is taken, in
which case it writes nothing. Every read path catches a failed read:
`login_user` then returns false, and the other three go on with an empty
table. The dashboard does not handle that empty table (see "## Findings").

This project models the logic of that script apart from its UI and its file
I/O:

- `Storage.dfy` — what reading a table file yields (`Table<T>`: the rows, or
  `Unreadable`). It also has the "load or start empty, add one row, save"
  step and boolean-mask row selection (`Filter`).
- `Users.dfy` — `register_user` as the method `UserStore.Register` on a class
  that holds the users file. `login_user` is the function `LoginUser`. The
  lemmas cover unique usernames, logging in right after registering, wrong
  passwords, and the single row kept for a rejected duplicate.
- `Tasks.dfy` — `append_task` as `TaskStore.AppendTask` and `load_tasks` as
  `LoadTasks`. The lemmas relate an append to every user's loaded tasks.
- `Dashboard.dfy` — the dashboard's "Total Tasks", "Total Expense" and
  "Recent Tasks" (`Summarize`). It includes the 30-day window and the
  newest-first sort, an insertion sort proved ordered and a permutation.
- `Expense.dfy` — the session's expense dictionary as the class
  `ExpenseForm`, one field per key. `Render` is one run of the expense
  section. It includes the `for k in e` reset loop (`ResetAll`) and the
  "None" override. `PurposeList`, `ExpenseFields` and `BuildRow` build the
  submitted row. The lemmas show that the purpose string records exactly the
  ticked categories: it splits back into them.
- `Session.dfy` — the session's `logged_in`/`username` pair
  (`SessionState.Login`, `SessionState.Logout`), the sidebar `Menu`, and the
  submit step of the Add Task page (`SubmitTask`).

Representations:

- Amounts are integer paise.
- A date is a day number. The loaded table holds it as `Option<int>`: `None`
  where the stored text did not parse.
- The current time `now` is a real number of days whose fractional part is
  the time of day.
- The file system, the clock and every widget value are parameters.

Behaviour kept as the code has it:

- After a failed read, `register_user` replaces the users file with the new
  row alone. `append_task` does the same with the tasks file.
- "Total Expense Amount" (app.py:299) adds all four stored sub-amounts,
  whether or not their box is still ticked.
- With no category and no "None" ticked, the saved purpose is `""`.
- The recent window compares midnight-dated rows against `now − 30 days`,
  time of day included. So a row from 30 days ago is shown only at exactly
  midnight. Otherwise the oldest day shown is 29 days ago (`WindowInDays`).
- `login_user` succeeds when one or more rows match (app.py:148-149). It
  does not require exactly one.

## Model

| member | source | states |
|---|---|---|
| `Storage.Load` | app.py:152-157 | The rows an operation works on: all of the file's rows, or none when the read fails. `register_user` (app.py:124-127) and `append_task` (app.py:160-163) read the same way. (A definition; `Tasks.LoadTasks` and `Dashboard.Summarize` state that a failed read gives no rows; `Users.UserStore.Register` and `Tasks.TaskStore.AppendTask` that the file then becomes the new row alone.) |
| `Storage.Appended` | app.py:159-166 | The file after "concatenate one row and write back" is readable and holds the loaded rows unchanged, with the new row after them, as `append_task` does and as `register_user` does at app.py:132-139. |
| `Storage.Filter` | app.py:148-155 | A boolean-mask selection keeps exactly the rows that pass the mask. It keeps no others and is empty iff no row passes. |
| `Storage.FilterAppend` | app.py:155-165 | Selecting from a table with one more row at the end gives the old selection, plus the new row if it passes. |
| `Storage.FilterConcat` | app.py:155 | Selecting from two tables laid end to end gives the selection from the first followed by the selection from the second. |
| `Storage.FilterKeepsAll` | app.py:155 | A selection that every row passes keeps the whole table, in order. |
| `Users.Taken` | app.py:129 | A username is taken iff selecting the rows with that username gives a non-empty selection. |
| `Users.Matches` | app.py:148 | The login mask: a row passes iff both its username and its password equal the given ones. Email and contact number play no part. (A definition; `Users.LoginUser` states its use.) |
| `Users.LoginUser` | app.py:142-149 | Login succeeds iff the file is readable and some row matches both username and password exactly. A failed read gives false. |
| `Users.UserStore.Register` | app.py:123-140 | A taken username returns `(false, "Username already exists!")` and leaves the file unchanged. If usernames were unique, that username still has exactly one row. Otherwise the method returns `(true, "Registration successful!")` and the file holds the loaded rows plus the new row at the end. After a failed read that is the new row alone. Unique usernames stay unique, and a login with the new credentials succeeds. |
| `Users.RegisterKeepsUnique` | app.py:129-137 | Appending a row whose username is not taken keeps usernames unique. |
| `Users.LoginAfterRegister` | app.py:132-149 | Right after the append, `login_user` with the new username and password is true. |
| `Users.WrongPasswordRejected` | app.py:142-149 | With unique usernames, a login that gives an existing username with a different password fails. |
| `Users.TakenHasOneRecord` | app.py:129-130 | With unique usernames, a rejected duplicate leaves exactly one row for that username. |
| `Tasks.LoadTasks` | app.py:151-157 | The result holds exactly the rows owned by the user, and is empty when the file cannot be read. |
| `Tasks.OwnedBy` | app.py:155 | The `load_tasks` mask `df["username"] == username`: a row passes iff its username equals the given one. (A definition; `Tasks.LoadTasks` states its use.) |
| `Tasks.LoadAfterAppend` | app.py:151-166 | After an append, the owner's loaded tasks are the previous ones with the new row at the end. |
| `Tasks.LoadOthersUnchanged` | app.py:151-166 | An append leaves every other user's loaded tasks unchanged. |
| `Tasks.TaskStore.AppendTask` | app.py:159-166 | The file becomes the loaded rows plus the row; after a failed read that is the row alone. The owner's tasks gain the row at the end, and other users' tasks do not change. |
| `Dashboard.SumAmounts` | app.py:235 | `df['amount'].sum()` in paise: 0 for no rows. (A definition; `SumAppend`, `SumConcat`, `SumSplit` and `SumNonNegative` state its properties.) |
| `Dashboard.SumAppend` | app.py:235 | The total of a table with one more row grows by that row's amount. |
| `Dashboard.SumConcat` | app.py:235 | The total of two tables laid end to end is the sum of their totals. |
| `Dashboard.SumSplit` | app.py:235-240 | Splitting rows by a mask and its complement splits the total between the two parts. |
| `Dashboard.SumNonNegative` | app.py:235 | When every amount is non-negative, so is the total. |
| `Dashboard.InWindow` | app.py:239-240 | A row is in the window iff its date parsed and, as midnight of its day, is not before `now` minus 30 days. An unparsed date compares false. (A definition; `WindowInDays` states it in whole days.) |
| `Dashboard.RecentRows` | app.py:240 | The rows the window mask selects, in table order. (A definition; `Dashboard.Summarize` states what the dashboard lists.) |
| `Dashboard.WindowInDays` | app.py:239-240 | Whether a day number passes `date >= now - 30 days`: at exact midnight, from 30 days back; otherwise from 29 days back. |
| `Dashboard.NotEarlier` | app.py:245 | The order of `sort_values("date", ascending=False)`: a later date comes first, and an unparsed date comes after every parsed one. (A definition; `SortNewestFirst` states the order.) |
| `Dashboard.Insert` | app.py:245 | Inserting adds exactly one occurrence of the row and removes nothing. |
| `Dashboard.InsertKeepsOrder` | app.py:245 | Inserting into a newest-first list keeps it newest first. |
| `Dashboard.SortNewestFirst` | app.py:245 | The sorted rows are a permutation of the input, in non-increasing date order. Unparseable dates come last. |
| `Dashboard.Summarize` | app.py:231-245 | "Total Tasks" is the number of the user's rows. "Total Expense" is the sum over all of them, 0 when there are none. "Recent" holds exactly the user's rows with a parsed date inside the window, each once per occurrence, newest first. An unreadable file gives `(0, 0, [])`. |
| `Dashboard.TotalIncludesOlderRows` | app.py:234-240 | "Total Expense" is the recent rows' total plus the total of rows that are older or have no parsed date. |
| `Dashboard.DashboardAfterAppend` | app.py:159-166 | One submitted task adds one to its owner's task count and its amount to their total. |
| `Dashboard.AppendAllRows` | app.py:159-166 | A run of `append_task` calls leaves the loaded table as its earlier rows followed by the appended rows, in order. |
| `Dashboard.LoadAfterAppendAll` | app.py:151-166 | After a run of appends by one user, `load_tasks` for that user gives the earlier tasks followed by the new rows, in order. |
| `Dashboard.SubmissionsCounted` | app.py:151-166 | After N submissions by one user, that user's task count grows by N and the expense total grows by the sum of the submitted amounts. |
| `Dashboard.SummarizeAsWritten` | app.py:230-245 | As written, "Total Tasks" and "Total Expense" always show the intended values: 0 and 0 after a failed read, thanks to the `df.empty` guard. The recent list fails (a key error on the missing "date" column) exactly when the tasks file cannot be read. Otherwise it is the intended list. |
| `Dashboard.DashboardFailsOnUnreadableFile` | app.py:230-240 | With an unreadable tasks file, the page as written shows 0 tasks and ₹0.00 and then stops at the recent list. The corrected dashboard also lists no recent tasks. |
| `Expense.BlankClearsEveryKey` | app.py:113-120 | The initial dictionary `Blank` holds the reset value at every key. No category is ticked and the stored total is 0. |
| `Expense.ExpenseState.StoredTotal` | app.py:299 | The "Total Expense Amount": the sum of all four stored sub-amounts, ticked or not. (A definition; `Expense.StaleSubAmountIsSaved` states the consequence.) |
| `Expense.ExpenseState.Reset` | app.py:278 | `e[k] = False` clears key `k` and leaves every other key holding the value it had. |
| `Expense.AllClearedIsBlank` | app.py:278-280 | A dictionary with every key cleared is the blank one. |
| `Expense.ExpenseForm.constructor` | app.py:113-120 | The session's expense dictionary starts blank: no flags and zero amounts. |
| `Expense.ExpenseForm.ResetKey` | app.py:278 | One loop step resets exactly the one key. |
| `Expense.ExpenseForm.ResetAll` | app.py:278 | After the loop over all keys, every flag is false, every amount 0 and the text empty. |
| `Expense.ExpenseForm.Render` | app.py:267-300 | The new dictionary is `RenderedState` of the old one and the run's inputs. If "None" is ticked: all four flags false, all four amounts 0, the override set, total 0. Otherwise the flags are the checkbox values. A ticked category stores its input amount, and an unticked one keeps its old amount. The total is the sum of all four stored amounts. The invariants (non-negative amounts; override implies a blank dictionary) are kept. This is the corrected step of the app.py:280 finding in "## Findings": the entered amount is stored even after an override. |
| `Expense.RenderedState` | app.py:270-297 | One run on values: "None" gives the override dictionary. Otherwise the flags are the checkbox values, the override is cleared, and the other-purpose text changes only when "Other" is ticked. |
| `Expense.RenderedTotal` | app.py:282-299 | Without the override, the total changes only by the re-entered amounts: each ticked category replaces its old amount by its input, and unticked ones keep theirs. |
| `Expense.RenderAsWritten` | app.py:276-297 | As written, a run fails with Streamlit's mixed-numeric-types error exactly when "None" is unticked, some category is ticked, and the stored amounts are the int zeros the override wrote. Otherwise the run gives `RenderedState` and its total. The override always leaves int zeros and a total of 0, and int zeros are never replaced. |
| `Expense.AmountEntryFailsAfterOverride` | app.py:276-283 | Tick "None", then untick it and tick "Travelling": as written the second run fails. The corrected step stores the entered travelling amount. |
| `Expense.AmountsEnteredAfterOverride` | app.py:280-297 | With the override storing float zeros, the run after an override stores the entered amount of every ticked category and leaves the other amounts at 0. |
| `Expense.ExpenseForm.PurposeList` | app.py:344-350 | The list built by successive appends, joined, is the `", "`-join of the ticked names in the order travelling, mobile_recharge, food, other. |
| `Expense.ExpenseForm.ExpenseFields` | app.py:338-352 | Under the override: purpose `"none"`, amount 0, other purpose `""`. Otherwise: a purpose that decodes to exactly the ticked categories; the amount is the stored total and the other purpose is the stored text. The purpose is `"none"` iff the override is set, and empty iff no category is ticked. |
| `Expense.ExpenseForm.BuildRow` | app.py:312-367 | The submitted row carries the form fields and the date. It has an assignee only for work assigned to someone else. Under the override the expense fields are `"none"`, 0 and `""`. Otherwise the purpose is the `", "`-join of the ticked names in the fixed order, which decodes to exactly the ticked categories; the amount is the stored total and the other purpose is the stored text. |
| `Expense.Selected` | app.py:344-348 | The list a run of conditional appends builds: the ticked names in the order travelling, mobile_recharge, food, other. (A definition; `Expense.SelectedMembership` and `Expense.ExpenseForm.PurposeList` state its properties.) |
| `Expense.Join` | app.py:350 | `", ".join(parts)`: `""` for no parts, the part itself for one. (A definition; `Expense.SplitJoin` states its inverse.) |
| `Expense.SplitWithoutSeparator` | app.py:350 | A name without a comma splits to itself. |
| `Expense.SplitAfterPart` | app.py:350 | Splitting `p + ", " + t` gives `p` followed by the split of `t`. |
| `Expense.SplitJoin` | app.py:350 | Splitting a `", "`-join gives back the parts when none contains a comma. |
| `Expense.SelectedMembership` | app.py:344-348 | Each category name is in the purpose list iff its box is ticked. The list is empty iff none is ticked. |
| `Expense.PurposeRoundTrip` | app.py:344-350 | Decoding the saved purpose string gives back exactly the ticked categories. |
| `Expense.PurposeEmptyIff` | app.py:344-350 | The purpose is `""` iff no category is ticked. |
| `Expense.PurposeNeverNone` | app.py:339-350 | No choice of categories produces the override's `"none"` marker. |
| `Expense.StaleSubAmountIsSaved` | app.py:282-299 | For every dictionary without the override and every unticked category, the saved total is that category's stale amount plus the total with that amount cleared. The saved purpose (app.py:344-350) does not name the category. |
| `Session.Menu` | app.py:171-181 | The menu holds exactly the pages whose need for a login matches the session. The first page, selected by default, is Dashboard or Login. |
| `Session.SessionState.constructor` | app.py:109-120 | A new session is logged out with an empty username and a blank expense dictionary. |
| `Session.SessionState.Login` | app.py:215-222 | The result is `login_user`. On success the session is logged in as that user; on failure nothing changes. |
| `Session.SessionState.Logout` | app.py:174-177 | The session is logged out with an empty username, and the menu is Login/Register. |
| `Session.SubmitTask` | app.py:338-369 | The row belongs to the session's user and carries the chosen date and every form field; the assignee is kept only for work assigned to someone else. Under the override the expense fields are `"none"`, 0 and `""`. Otherwise the purpose is the `", "`-join of the ticked names in the fixed order, the amount is the stored total and the other purpose is the stored text. The file becomes the loaded rows plus this row. The user's tasks gain the row at the end; other users' tasks are unchanged. |

## Findings

| source | as written | input that shows it | evidently intended | confidence | as-written member | corrected member |
|---|---|---|---|---|---|---|
| app.py:157, app.py:240 | After a failed read, `load_tasks` returns `pd.DataFrame()`, which has no columns. The dashboard shows "Total Tasks" 0 and, through its `df.empty` guard, "₹0.00". It then shows the "Recent Tasks" heading and evaluates `df["date"]`. | A logged-in user opens Dashboard while the tasks file is corrupt or unreadable: `df["date"]` raises `KeyError`. | An empty dashboard: 0 tasks, ₹0.00 and "No recent tasks found.", like the other read paths that degrade to an empty table. | not executed; follows from the pandas semantics of selecting a missing column | `Dashboard.SummarizeAsWritten` (shown by `Dashboard.DashboardFailsOnUnreadableFile`) | `Dashboard.Summarize` |
| app.py:280 | After "None" is ticked, the four amounts are set to the int literal `0`. The later `st.number_input(..., min_value=0.0, step=0.1, value=e[...])` at app.py:283-296 then mixes an int `value` with float `min_value` and `step`, which Streamlit refuses. | Tick "None (No Expense)"; on the next run untick it and tick "Travelling": the page fails at app.py:283, and no amount can be entered for the rest of the session. | The override stores `0.0`, so the entered amount is stored. | not executed; follows from Streamlit's rule that all numeric arguments of `number_input` share one type | `Expense.RenderAsWritten` (shown by `Expense.AmountEntryFailsAfterOverride`) | `Expense.ExpenseForm.Render` (with `Expense.AmountsEnteredAfterOverride`) |

## Left out

- The CSS theme and all widget rendering (app.py:10-85, cards, columns, metrics, messages) are presentation only.
- The dashboard's per-row card text (app.py:246-257) is presentation only.
- `st.rerun()` and page routing beyond the menu contents are presentation only.
- Spreadsheet read and write and `init_files` (app.py:93-106) are file I/O. Each file is a `Table` value: its rows, or unreadable. The model assumes a readable file holds exactly the values written into it. Type coercion by the spreadsheet reader is not modelled: empty text read back as missing, and numeric-looking text read back as numbers.
- Date parsing and coercion (app.py:154), the `YYYY-MM-DD` serialisation at app.py:356 (ISO 8601 calendar dates) and `datetime.now()` are not modelled. Dates are day numbers already parsed, and `now` is a parameter.
- Floating-point amounts and the `:.2f` formatting (app.py:235, 300) are not modelled. Amounts are exact integer paise. The `min_value=0.0` of the amount inputs is a precondition of `Expense.ExpenseForm.Render`. Python's int/float distinction appears only where it decides behaviour: `NumKind` in `Expense.RenderAsWritten`.
- Expense.RenderAsWritten: the as-written run is modelled on values (`ExpenseState` and `NumKind`), beside the in-place `ExpenseForm.Render`, which models the corrected step. It rests on Streamlit's rule that `number_input` refuses numeric arguments of mixed int and float type.
- Widgets keep their own state across reruns. All checkbox, number and text inputs are parameters of the run, whatever their value.
- The lost-update race between concurrent whole-file rewrites is not modelled: the script serves one request at a time and has no locking.
- Passwords are compared as plaintext, exactly as written. No hashing is modelled.
- At app.py:278 the other-purpose text is set to `False`. The model treats that as cleared (`""`); a submitted row uses `""` under the override anyway.
- Dashboard.SortNewestFirst: the order of rows with equal dates is not stated. The source's default sort is not stable, so the source promises no particular order for ties.
- The Register page's success or error message display is not modelled. `UserStore.Register` returns the message.
