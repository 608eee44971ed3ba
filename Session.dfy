/** The per-browser session of the page script: whether someone is logged
    in, as whom, and the in-progress expense dictionary; the menu it offers;
    and the submit step of the Add Task page. */
module Session {
  import opened Storage
  import opened Users
  import opened Tasks
  import opened Expense

  datatype Page = LoginPage | RegisterPage | DashboardPage | AddTaskPage

  /** The pages meant for a logged-in user. */
  predicate NeedsLogin(p: Page)
  {
    p == DashboardPage || p == AddTaskPage
  }

  /** The sidebar menu: exactly the pages whose need for a login matches the
      session's state, the first of them being the one selected by default. */
  function Menu(loggedIn: bool): (r: seq<Page>)
    ensures forall p :: p in r <==> (NeedsLogin(p) <==> loggedIn)
    ensures |r| == 2 && r[0] == if loggedIn then DashboardPage else LoginPage
  {
    if loggedIn then [DashboardPage, AddTaskPage] else [LoginPage, RegisterPage]
  }

  class SessionState {
    var loggedIn: bool
    var username: string
    const expense: ExpenseForm

    /** A logged-out session carries no username, and the expense dictionary
        keeps its own invariant. */
    ghost predicate Valid()
      reads this, expense
    {
      (!loggedIn ==> username == "") && expense.Valid()
    }

    /** The session values set on the first run of the script. */
    constructor ()
      ensures !loggedIn && username == ""
      ensures fresh(expense) && expense.State() == Blank
      ensures Valid()
    {
      loggedIn := false;
      username := "";
      expense := new ExpenseForm();
    }

    /** The Login page on submit: a successful login_user logs the session
        in as `user`; a failed one changes nothing. */
    method Login(users: Table<UserRecord>, user: string, password: string) returns (ok: bool)
      requires Valid()
      modifies this
      ensures Valid()
      ensures ok <==> LoginUser(users, user, password)
      ensures ok ==> loggedIn && username == user
      ensures !ok ==> loggedIn == old(loggedIn) && username == old(username)
    {
      ok := LoginUser(users, user, password);
      if ok {
        loggedIn := true;
        username := user;
      }
    }

    /** The Logout button: back to the logged-out state. The expense
        dictionary is left as it is. */
    method Logout()
      requires Valid()
      modifies this
      ensures Valid()
      ensures !loggedIn && username == ""
      ensures Menu(loggedIn) == [LoginPage, RegisterPage]
    {
      loggedIn := false;
      username := "";
    }
  }

  /** The Add Task page on submit: build the row from the form and the
      session's expense dictionary and append it to the tasks table, under
      the session's username. */
  method SubmitTask(session: SessionState, store: TaskStore, date: int, assignedBy: string,
                    work: WorkAssignment, assignedToInput: string, description: string,
                    workDone: string, status: TaskStatus, nextDay: string)
    returns (row: TaskRecord)
    requires session.Valid()
    modifies store
    ensures row.username == session.username && row.date == Some(date)
    ensures row.taskAssignedBy == assignedBy && row.workAssignment == work
    ensures row.assignedToPerson == if work == AssignedToOther then assignedToInput else ""
    ensures row.taskDescription == description && row.workDoneToday == workDone
    ensures row.taskStatus == status && row.workPlanNextDay == nextDay
    ensures session.expense.none ==> row.expensePurpose == "none" && row.amount == 0 && row.otherPurpose == ""
    ensures !session.expense.none ==> row.expensePurpose == Join(Selected(session.expense.State().Ticked()))
    ensures !session.expense.none ==> DecodeCategories(row.expensePurpose) == session.expense.State().Ticked()
    ensures !session.expense.none ==> row.amount == session.expense.State().StoredTotal()
    ensures !session.expense.none ==> row.otherPurpose == session.expense.otherPurpose
    ensures store.file == Appended(old(store.file), row)
    ensures LoadTasks(store.file, session.username) == LoadTasks(old(store.file), session.username) + [row]
    ensures forall u :: u != session.username ==> LoadTasks(store.file, u) == LoadTasks(old(store.file), u)
  {
    row := session.expense.BuildRow(session.username, date, assignedBy, work, assignedToInput,
                                    description, workDone, status, nextDay);
    store.AppendTask(row);
  }
}
