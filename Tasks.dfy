/** The task/expense table: rows appended by the Add Task page and loaded,
    filtered by owner, for the dashboard. */
module Tasks {
  import opened Storage

  /** The "Work Assignment" choice: "", "self" or "other". */
  datatype WorkAssignment = Unassigned | SelfAssigned | AssignedToOther

  /** The "Task Status" choice: "", "pending", "in_progress" or "completed". */
  datatype TaskStatus = NoStatus | Pending | InProgress | Completed

  /** One row of the tasks table. `date` is a day number as the loaded table
      has it after coercion, `None` where the stored text did not parse;
      `amount` is in paise. */
  datatype TaskRecord = TaskRecord(
    username: string,
    date: Option<int>,
    taskAssignedBy: string,
    workAssignment: WorkAssignment,
    assignedToPerson: string,
    taskDescription: string,
    workDoneToday: string,
    taskStatus: TaskStatus,
    workPlanNextDay: string,
    expensePurpose: string,
    otherPurpose: string,
    amount: int)

  /** The rows of the tasks table that belong to `username`. */
  predicate OwnedBy(username: string, t: TaskRecord)
  {
    t.username == username
  }

  /** load_tasks: the rows owned by `username`, in table order; an empty
      result when the table cannot be read. */
  function LoadTasks(t: Table<TaskRecord>, username: string): (r: seq<TaskRecord>)
    ensures t.Unreadable? ==> r == []
    ensures forall i :: 0 <= i < |r| ==> r[i] in Load(t) && r[i].username == username
    ensures forall i :: 0 <= i < |Load(t)| && Load(t)[i].username == username ==> Load(t)[i] in r
  {
    Filter((x: TaskRecord) => OwnedBy(username, x), Load(t))
  }

  /** After one row is appended, its owner's tasks are the previous ones
      followed by the new row. */
  lemma LoadAfterAppend(t: Table<TaskRecord>, row: TaskRecord)
    ensures LoadTasks(Appended(t, row), row.username) == LoadTasks(t, row.username) + [row]
  {
    FilterAppend((x: TaskRecord) => OwnedBy(row.username, x), Load(t), row);
  }

  /** Appending a row leaves every other user's tasks unchanged. */
  lemma LoadOthersUnchanged(t: Table<TaskRecord>, row: TaskRecord, username: string)
    requires username != row.username
    ensures LoadTasks(Appended(t, row), username) == LoadTasks(t, username)
  {
    FilterAppend((x: TaskRecord) => OwnedBy(username, x), Load(t), row);
  }

  /** The tasks file, as the program sees it between runs of the page script. */
  class TaskStore {
    var file: Table<TaskRecord>

    constructor (contents: Table<TaskRecord>)
      ensures file == contents
    {
      file := contents;
    }

    /** append_task: load the table (starting empty after a failed read),
        concatenate the row, write the whole table back. */
    method AppendTask(row: TaskRecord)
      modifies this
      ensures file == Readable(Load(old(file)) + [row])
      ensures LoadTasks(file, row.username) == LoadTasks(old(file), row.username) + [row]
      ensures forall u :: u != row.username ==> LoadTasks(file, u) == LoadTasks(old(file), u)
    {
      ghost var before := file;
      var df := Load(file);
      df := df + [row];
      file := Readable(df);
      LoadAfterAppend(before, row);
      forall u | u != row.username
        ensures LoadTasks(file, u) == LoadTasks(before, u)
      {
        LoadOthersUnchanged(before, row, u);
      }
    }
  }
}
